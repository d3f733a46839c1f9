/**
 * The per-class tally of a folder of YOLO label files, and the series the
 * bar chart of that tally is drawn from. The folder is a sequence of files,
 * each a name and the lines `readlines()` returns for it.
 */
module CountPlot {
  import opened Wrappers
  import opened Text
  import opened Sums

  /** The names of class ids 0 to 14, in id order. */
  const ClassNames: seq<string> :=
    ["car", "bike", "auto", "rickshaw", "cycle", "bus", "minitruck", "truck", "van", "taxi",
     "motorvan", "toto", "train", "boat", "other"]

  /** The keys of the class-name dictionary: 0 to 14. */
  const ClassIds: set<int> := set k | 0 <= k < 15

  /** One entry of the folder: its name and its lines. */
  datatype LabelFile = LabelFile(name: string, lines: seq<string>)

  /** Only files whose name ends in `.txt` are read. */
  predicate IsLabelFile(f: LabelFile)
  {
    EndsWith(f.name, ".txt")
  }

  predicate IsDigit(c: char)
  {
    '0' <= c <= '9'
  }

  /**
   * The digit part of a decimal literal as Python's `int()` reads it:
   * digits, with single underscores allowed between two digits.
   */
  predicate DecimalDigits(s: string)
  {
    && |s| > 0
    && IsDigit(s[0])
    && IsDigit(s[|s| - 1])
    && (forall i :: 0 <= i < |s| ==> IsDigit(s[i]) || s[i] == '_')
    && (forall i :: 0 <= i < |s| - 1 && s[i] == '_' ==> IsDigit(s[i + 1]))
  }

  /** The value of a digit string, underscores skipped. */
  function DigitsValue(s: string): nat
  {
    if s == [] then 0
    else if s[|s| - 1] == '_' then DigitsValue(s[..|s| - 1])
    else DigitsValue(s[..|s| - 1]) * 10 + DigitOf(s[|s| - 1])
  }

  function DigitOf(c: char): nat
  {
    if IsDigit(c) then c as int - '0' as int else 0
  }

  /**
   * `int(token)` on a whitespace-free token: an optional sign and a decimal
   * literal; anything else raises ValueError (None here).
   */
  function ParseInt(token: string): (r: Option<int>)
    ensures r.Some? ==> |token| > 0
    ensures r.Some? && IsDigit(token[0]) ==> r.value >= 0
  {
    if |token| > 0 && token[0] == '-' && DecimalDigits(token[1..]) then Some(0 - DigitsValue(token[1..]))
    else if |token| > 0 && token[0] == '+' && DecimalDigits(token[1..]) then Some(DigitsValue(token[1..]))
    else if DecimalDigits(token) then Some(DigitsValue(token))
    else None
  }

  /** The decimal digits of `n`, without leading zeros. */
  function ShowNat(n: nat): (s: string)
    ensures |s| > 0 && forall i :: 0 <= i < |s| ==> IsDigit(s[i])
  {
    var d := ['0' + (n % 10) as char];
    if n < 10 then d else ShowNat(n / 10) + d
  }

  /** `str(n)`: the decimal form of an integer, with a minus sign when negative. */
  function ShowInt(n: int): string
  {
    if n < 0 then "-" + ShowNat(-n) else ShowNat(n)
  }

  /** Reading back the decimal digits of `n` gives `n`. */
  lemma {:induction false} DigitsValueOfShowNat(n: nat)
    ensures DigitsValue(ShowNat(n)) == n
  {
    var d := ['0' + (n % 10) as char];
    if n >= 10 {
      DigitsValueOfShowNat(n / 10);
      assert (ShowNat(n / 10) + d)[..|ShowNat(n / 10) + d| - 1] == ShowNat(n / 10);
    }
  }

  /** `int(str(n)) == n`. */
  lemma ParseShowInt(n: int)
    ensures ParseInt(ShowInt(n)) == Some(n)
  {
    if n < 0 {
      DigitsValueOfShowNat(-n);
      assert ShowInt(n)[1..] == ShowNat(-n);
    } else {
      DigitsValueOfShowNat(n);
    }
  }

  /** Underscores group digits; a decimal point, a letter or a doubled underscore does not parse. */
  lemma ParseIntExamples()
    ensures ParseInt("1_000") == Some(1000)
    ensures ParseInt("-1") == Some(-1)
    ensures ParseInt("+07") == Some(7)
    ensures ParseInt("1.5") == None
    ensures ParseInt("1__0") == None
    ensures ParseInt("_1") == None
  {
    assert DigitsValue("1_000") == 1000 by {
      assert "1_000"[..4] == "1_00";
      assert "1_00"[..3] == "1_0";
      assert "1_0"[..2] == "1_";
      assert "1_"[..1] == "1";
      assert "1"[..0] == "";
    }
    assert "-1"[1..] == "1";
    assert DigitsValue("1") == 1 by {
      assert "1"[..0] == "";
    }
    assert "+07"[1..] == "07";
    assert DigitsValue("07") == 7 by {
      assert "07"[..1] == "0";
      assert "0"[..0] == "";
    }
    assert !DecimalDigits("1__0") by {
      assert "1__0"[1] == '_' && !IsDigit("1__0"[2]);
    }
  }

  /** How one line takes part in the tally. */
  datatype LineKind =
    | Blank            // `line.split()[0]` raises IndexError
    | Parsed(id: int)  // `int(line.split()[0])` succeeds
    | NotInt           // `int(...)` raises ValueError, which is caught

  /** What `int(line.split()[0])` does with a line. */
  function LineClass(line: string): LineKind
  {
    var words := SplitWhitespace(line);
    if words == [] then Blank
    else match ParseInt(words[0])
      case None => NotInt
      case Some(v) => Parsed(v)
  }

  /** The kinds of a file's lines, in order. */
  function KindsOf(lines: seq<string>): (kinds: seq<LineKind>)
    ensures |kinds| == |lines| && forall j :: 0 <= j < |lines| ==> kinds[j] == LineClass(lines[j])
  {
    seq(|lines|, j requires 0 <= j < |lines| => LineClass(lines[j]))
  }

  /** One turn of the line loop: count the line's class if the tally has it; a blank line raises. */
  function TallyLine(tally: map<int, nat>, kind: LineKind): Option<map<int, nat>>
  {
    match kind
    case Blank => None
    case NotInt => Some(tally)
    case Parsed(v) => if v in tally then Some(tally[v := tally[v] + 1]) else Some(tally)
  }

  /** The line loop over a whole file, from `tally`; None once a line raised. */
  function LinesTally(tally: map<int, nat>, kinds: seq<LineKind>): Option<map<int, nat>>
  {
    if kinds == [] then Some(tally)
    else match LinesTally(tally, kinds[..|kinds| - 1])
      case None => None
      case Some(t) => TallyLine(t, kinds[|kinds| - 1])
  }

  /** The file loop over the folder, from `tally`; only `.txt` files are read. */
  function FolderTally(tally: map<int, nat>, files: seq<LabelFile>): Option<map<int, nat>>
  {
    if files == [] then Some(tally)
    else match FolderTally(tally, files[..|files| - 1])
      case None => None
      case Some(t) =>
        var f := files[|files| - 1];
        if IsLabelFile(f) then LinesTally(t, KindsOf(f.lines)) else Some(t)
  }

  /** The starting tally: every class id at zero. */
  function ZeroCounts(): (counts: map<int, nat>)
    ensures counts.Keys == ClassIds && forall k :: k in counts ==> counts[k] == 0
  {
    map k | k in ClassIds :: 0
  }

  /** 1 for a line whose first token reads as `k`. */
  function HitOf(k: int): LineKind -> nat
  {
    kind => if kind == Parsed(k) then 1 else 0
  }

  /** 1 for a line counted towards some class. */
  function Qualifies(kind: LineKind): nat
  {
    if kind.Parsed? && kind.id in ClassIds then 1 else 0
  }

  /** What one file adds to class `k`. */
  function FileCount(k: int): LabelFile -> nat
  {
    f => if IsLabelFile(f) then SumOf(KindsOf(f.lines), HitOf(k)) else 0
  }

  /** The number of lines of the folder's label files whose first token reads as `k`. */
  function CountOf(files: seq<LabelFile>, k: int): nat
  {
    SumOf(files, FileCount(k))
  }

  /** The per-class counts as a function of the class id. */
  function CountsOf(files: seq<LabelFile>): int -> nat
  {
    k => CountOf(files, k)
  }

  /** What one file adds to the number of counted lines. */
  function FileQualifies(f: LabelFile): nat
  {
    if IsLabelFile(f) then SumOf(KindsOf(f.lines), Qualifies) else 0
  }

  /** The number of lines of the folder's label files counted towards some class. */
  function CountedLines(files: seq<LabelFile>): nat
  {
    SumOf(files, FileQualifies)
  }

  /** Some line of the run is blank. */
  predicate AnyBlank(kinds: seq<LineKind>)
  {
    exists j :: 0 <= j < |kinds| && kinds[j].Blank?
  }

  /** Some label file of the folder has a line with no token. */
  predicate HasBlankLine(files: seq<LabelFile>)
  {
    exists n :: 0 <= n < |files| && IsLabelFile(files[n]) && AnyBlank(KindsOf(files[n].lines))
  }

  datatype CountError = IndexError

  /**
   * `count_classes_in_folder`: a zero count for each class id, then one more
   * for each line of a `.txt` file whose first token is that id. A blank line
   * in a `.txt` file raises IndexError, which is not caught.
   */
  method CountClassesInFolder(files: seq<LabelFile>) returns (r: Result<map<int, nat>, CountError>)
    ensures r.Failure? <==> HasBlankLine(files)
    ensures r.Success? ==>
              r.value.Keys == ClassIds && forall k :: k in r.value ==> r.value[k] == CountOf(files, k)
  {
    var counts := map k | k in ClassIds :: 0;
    for n := 0 to |files|
      invariant FolderTally(ZeroCounts(), files[..n]) == Some(counts)
    {
      var f := files[n];
      assert files[..n + 1][..n] == files[..n];
      if EndsWith(f.name, ".txt") {
        var tallied := CountLines(counts, f.lines);
        if tallied.None? {
          FolderTallyStaysFailed(ZeroCounts(), files, n + 1);
          FolderTallyMeaning(ZeroCounts(), files);
          return Failure(IndexError);
        }
        counts := tallied.value;
      }
    }
    assert files[..|files|] == files;
    FolderTallyMeaning(ZeroCounts(), files);
    return Success(counts);
  }

  /** The `for line in annotations` loop of one file, from the running tally. */
  method CountLines(counts: map<int, nat>, lines: seq<string>) returns (r: Option<map<int, nat>>)
    ensures r == LinesTally(counts, KindsOf(lines))
  {
    var tally := counts;
    ghost var kinds := KindsOf(lines);
    for j := 0 to |lines|
      invariant LinesTally(counts, kinds[..j]) == Some(tally)
    {
      LinesTallyStep(counts, kinds, j);
      var next := CountLine(tally, lines[j]);
      if next.None? {
        LinesTallyStaysFailed(counts, kinds, j + 1);
        return None;
      }
      tally := next.value;
    }
    assert kinds[..|lines|] == kinds;
    return Some(tally);
  }

  /**
   * The body of the line loop: a blank line raises IndexError (None), a
   * first token that is not an integer is skipped (the caught ValueError),
   * and an id the tally has is counted.
   */
  method CountLine(tally: map<int, nat>, line: string) returns (r: Option<map<int, nat>>)
    ensures r == TallyLine(tally, LineClass(line))
  {
    var words := SplitWhitespace(line);
    if words == [] {
      return None;
    }
    match ParseInt(words[0]) {
      case None =>
        return Some(tally);
      case Some(id) =>
        if id in tally {
          return Some(tally[id := tally[id] + 1]);
        }
        return Some(tally);
    }
  }

  /** One more turn of the line loop. */
  lemma LinesTallyStep(tally: map<int, nat>, kinds: seq<LineKind>, j: nat)
    requires j < |kinds|
    ensures LinesTally(tally, kinds[..j + 1]) ==
              match LinesTally(tally, kinds[..j])
              case None => None
              case Some(t) => TallyLine(t, kinds[j])
  {
    assert kinds[..j + 1][..j] == kinds[..j];
  }

  /** Once a line has raised, the rest of the file does not matter. */
  lemma {:induction false} LinesTallyStaysFailed(tally: map<int, nat>, kinds: seq<LineKind>, j: nat)
    requires j <= |kinds| && LinesTally(tally, kinds[..j]).None?
    ensures LinesTally(tally, kinds).None?
    decreases |kinds| - j
  {
    if j < |kinds| {
      assert kinds[..j + 1][..j] == kinds[..j];
      LinesTallyStaysFailed(tally, kinds, j + 1);
    } else {
      assert kinds[..j] == kinds;
    }
  }

  /** Once a file has raised, the remaining files do not matter. */
  lemma {:induction false} FolderTallyStaysFailed(tally: map<int, nat>, files: seq<LabelFile>, n: nat)
    requires n <= |files| && FolderTally(tally, files[..n]).None?
    ensures FolderTally(tally, files).None?
    decreases |files| - n
  {
    if n < |files| {
      assert files[..n + 1][..n] == files[..n];
      FolderTallyStaysFailed(tally, files, n + 1);
    } else {
      assert files[..n] == files;
    }
  }

  /**
   * The line loop fails exactly on a blank line; otherwise it keeps the
   * tally's keys and adds to each key the number of lines that read as it.
   */
  lemma {:induction false} LinesTallyMeaning(tally: map<int, nat>, kinds: seq<LineKind>)
    ensures LinesTally(tally, kinds).None? <==> AnyBlank(kinds)
    ensures LinesTally(tally, kinds).Some? ==>
              var t := LinesTally(tally, kinds).value;
              t.Keys == tally.Keys && forall k :: k in t ==> t[k] == tally[k] + SumOf(kinds, HitOf(k))
  {
    if kinds != [] {
      var last := |kinds| - 1;
      var prefix := kinds[..last];
      LinesTallyMeaning(tally, prefix);
      assert AnyBlank(kinds) <==> AnyBlank(prefix) || kinds[last].Blank? by {
        if AnyBlank(kinds) && !kinds[last].Blank? {
          var j :| 0 <= j < |kinds| && kinds[j].Blank?;
          assert prefix[j] == kinds[j];
        }
      }
    }
  }

  /**
   * The file loop fails exactly when a label file has a blank line;
   * otherwise each key of the tally grows by the folder's count for it.
   */
  lemma {:induction false} FolderTallyMeaning(tally: map<int, nat>, files: seq<LabelFile>)
    ensures FolderTally(tally, files).None? <==> HasBlankLine(files)
    ensures FolderTally(tally, files).Some? ==>
              var t := FolderTally(tally, files).value;
              t.Keys == tally.Keys && forall k :: k in t ==> t[k] == tally[k] + CountOf(files, k)
  {
    if files != [] {
      var last := |files| - 1;
      var prefix := files[..last];
      var f := files[last];
      FolderTallyMeaning(tally, prefix);
      assert HasBlankLine(files) <==> HasBlankLine(prefix) || (IsLabelFile(f) && AnyBlank(KindsOf(f.lines))) by {
        if HasBlankLine(files) && !(IsLabelFile(f) && AnyBlank(KindsOf(f.lines))) {
          var n :| 0 <= n < |files| && IsLabelFile(files[n]) && AnyBlank(KindsOf(files[n].lines));
          assert prefix[n] == files[n];
        }
      }
      match FolderTally(tally, prefix)
      case None =>
      case Some(t) =>
        if IsLabelFile(f) {
          LinesTallyMeaning(t, KindsOf(f.lines));
        }
    }
  }

  /** The tally does not depend on the order of the files. */
  lemma CountFileOrder(files: seq<LabelFile>, reordered: seq<LabelFile>, k: int)
    requires multiset(files) == multiset(reordered)
    ensures CountOf(files, k) == CountOf(reordered, k)
  {
    SumOfPermutation(files, reordered, FileCount(k));
  }

  /** 1 for a line whose first token reads as `k`, on the line's text. */
  function LineHit(k: int): string -> nat
  {
    line => HitOf(k)(LineClass(line))
  }

  /** Summing over the kinds of the lines is summing over the lines. */
  lemma {:induction false} SumOverKinds(lines: seq<string>, k: int)
    ensures SumOf(KindsOf(lines), HitOf(k)) == SumOf(lines, LineHit(k))
  {
    if lines != [] {
      var last := |lines| - 1;
      SumOverKinds(lines[..last], k);
      assert KindsOf(lines)[..last] == KindsOf(lines[..last]);
    }
  }

  /** The tally does not depend on the order of the lines inside a file. */
  lemma CountLineOrder(files: seq<LabelFile>, n: nat, lines: seq<string>, k: int)
    requires n < |files| && multiset(lines) == multiset(files[n].lines)
    ensures CountOf(files[n := LabelFile(files[n].name, lines)], k) == CountOf(files, k)
  {
    SumOverKinds(lines, k);
    SumOverKinds(files[n].lines, k);
    SumOfPermutation(lines, files[n].lines, LineHit(k));
    SumOfUpdate(files, n, LabelFile(files[n].name, lines), FileCount(k));
  }

  /**
   * A line whose first token reads as `c` counts once towards `c`, and
   * towards the total exactly when `c` is a class id.
   */
  lemma LineCountsOnce(line: string, c: int, k: int)
    requires SplitWhitespace(line) != [] && ParseInt(SplitWhitespace(line)[0]) == Some(c)
    ensures HitOf(k)(LineClass(line)) == if k == c then 1 else 0
    ensures Qualifies(LineClass(line)) == if c in ClassIds then 1 else 0
  {
  }

  /** A line with no token is blank; a token that is not an integer is skipped. */
  lemma LineKinds(line: string)
    ensures LineClass(line).Blank? <==> SplitWhitespace(line) == []
    ensures LineClass(line) == NotInt <==>
              SplitWhitespace(line) != [] && ParseInt(SplitWhitespace(line)[0]).None?
    ensures forall k :: LineClass(line) == NotInt ==> HitOf(k)(LineClass(line)) == 0
  {
  }

  /** Over the fifteen classes, the counts add up to the number of counted lines. */
  lemma CountsSumToCountedLines(files: seq<LabelFile>)
    ensures SumBelow(15, CountsOf(files)) == CountedLines(files)
  {
    CountsSumBelow(files, 15);
  }

  /** The sum over the class ids `0..n-1`, for `n` the number of classes. */
  lemma {:induction false} CountsSumBelow(files: seq<LabelFile>, n: nat)
    requires n == 15
    ensures SumBelow(n, CountsOf(files)) == CountedLines(files)
  {
    if files == [] {
      ZeroSum(n, CountsOf(files));
    } else {
      var last := |files| - 1;
      CountsSumBelow(files[..last], n);
      CountsSnoc(files, n);
      FileSum(files[last], n);
    }
  }

  /** The last file adds its per-class counts to the per-class sums. */
  lemma CountsSnoc(files: seq<LabelFile>, n: nat)
    requires files != []
    ensures SumBelow(n, CountsOf(files)) ==
              SumBelow(n, CountsOf(files[..|files| - 1])) + SumBelow(n, FileCounts(files[|files| - 1]))
    ensures CountedLines(files) == CountedLines(files[..|files| - 1]) + FileQualifies(files[|files| - 1])
  {
    var prefix := files[..|files| - 1];
    var f := files[|files| - 1];
    forall k | 0 <= k < n
      ensures CountsOf(files)(k) == CountsOf(prefix)(k) + FileCounts(f)(k)
    {
      assert CountOf(files, k) == SumOf(prefix, FileCount(k)) + FileCount(k)(f);
    }
    SumBelowAdd(n, CountsOf(prefix), FileCounts(f), CountsOf(files));
  }

  /** Over the class ids, one file's counts add up to its counted lines. */
  lemma FileSum(f: LabelFile, n: nat)
    requires n == 15
    ensures SumBelow(n, FileCounts(f)) == FileQualifies(f)
  {
    if IsLabelFile(f) {
      LineCountsSum(KindsOf(f.lines), n);
      forall k | 0 <= k < n
        ensures FileCounts(f)(k) == LineCounts(KindsOf(f.lines))(k)
      {
        assert FileCount(k)(f) == SumOf(KindsOf(f.lines), HitOf(k));
      }
      SamePointwise(n, FileCounts(f), LineCounts(KindsOf(f.lines)));
    } else {
      forall k | 0 <= k < n
        ensures FileCounts(f)(k) == 0
      {
        assert FileCount(k)(f) == 0;
      }
      ZeroSum(n, FileCounts(f));
    }
  }

  /** What file `f` adds to each class, as a function of the class id. */
  function FileCounts(f: LabelFile): int -> nat
  {
    k => FileCount(k)(f)
  }

  /** What a run of lines adds to each class, as a function of the class id. */
  function LineCounts(kinds: seq<LineKind>): int -> nat
  {
    k => SumOf(kinds, HitOf(k))
  }

  /** The classes a given line counts towards, as a function of the class id. */
  function LineHits(kind: LineKind): int -> nat
  {
    k => HitOf(k)(kind)
  }

  /** Over the `n` (fifteen) classes, the hits of a run of lines add up to its counted lines. */
  lemma {:induction false} LineCountsSum(kinds: seq<LineKind>, n: nat)
    requires n == 15
    ensures SumBelow(n, LineCounts(kinds)) == SumOf(kinds, Qualifies)
  {
    if kinds == [] {
      ZeroSum(n, LineCounts(kinds));
    } else {
      var last := |kinds| - 1;
      LineCountsSum(kinds[..last], n);
      LineCountsSnoc(kinds, n);
      HitsSum(kinds[last], n);
    }
  }

  /** The last line adds its hits to the per-class sums. */
  lemma LineCountsSnoc(kinds: seq<LineKind>, n: nat)
    requires kinds != []
    ensures SumBelow(n, LineCounts(kinds)) ==
              SumBelow(n, LineCounts(kinds[..|kinds| - 1])) + SumBelow(n, LineHits(kinds[|kinds| - 1]))
    ensures SumOf(kinds, Qualifies) == SumOf(kinds[..|kinds| - 1], Qualifies) + Qualifies(kinds[|kinds| - 1])
  {
    var prefix := kinds[..|kinds| - 1];
    var kind := kinds[|kinds| - 1];
    forall k | 0 <= k < n
      ensures LineCounts(kinds)(k) == LineCounts(prefix)(k) + LineHits(kind)(k)
    {
      assert SumOf(kinds, HitOf(k)) == SumOf(prefix, HitOf(k)) + HitOf(k)(kind);
    }
    SumBelowAdd(n, LineCounts(prefix), LineHits(kind), LineCounts(kinds));
  }

  /** One line hits at most one class id, and one exactly when it is counted. */
  lemma HitsSum(kind: LineKind, n: nat)
    requires n == 15
    ensures SumBelow(n, LineHits(kind)) == Qualifies(kind)
  {
    var c := if kind.Parsed? then kind.id else -1;
    forall k | 0 <= k < n
      ensures LineHits(kind)(k) == if k == c then 1 else 0
    {
      assert LineHits(kind)(k) == HitOf(k)(kind);
    }
    SumBelowIndicator(n, c, LineHits(kind));
  }

  /** Functions that agree below `n` have the same sum. */
  lemma {:induction false} SamePointwise(n: nat, g: int -> nat, h: int -> nat)
    requires forall k :: 0 <= k < n ==> g(k) == h(k)
    ensures SumBelow(n, g) == SumBelow(n, h)
  {
    if n > 0 {
      SamePointwise(n - 1, g, h);
    }
  }

  /** A function that is zero below `n` sums to zero. */
  lemma {:induction false} ZeroSum(n: nat, g: int -> nat)
    requires forall k :: 0 <= k < n ==> g(k) == 0
    ensures SumBelow(n, g) == 0
  {
    if n > 0 {
      ZeroSum(n - 1, g);
    }
  }
}
