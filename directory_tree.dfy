/**
 * `print_directory_structure`: the tree of a directory, one line per entry,
 * drawn with `├──` and `└──` connectors. The file system is a tree of
 * nodes and the printed text a sequence of lines on a console.
 */
module DirectoryTree {
  import opened Wrappers
  import opened Text
  import opened Sums

  /** An entry of the file system: a plain file, or a directory and its entries as listed. */
  datatype Node = File(name: string) | Dir(name: string, children: seq<Node>)

  /** `os.path.isdir` on the root failed. */
  datatype DirError = NotADirectory(path: string)

  /** `a <= b` for Python strings: lexicographic order on code points. */
  predicate NameLe(a: string, b: string)
    decreases |a|
  {
    if a == [] then true
    else if b == [] then false
    else if a[0] != b[0] then a[0] < b[0]
    else NameLe(a[1..], b[1..])
  }

  /** Any two names are ordered one way or the other. */
  lemma {:induction false} NameLeTotal(a: string, b: string)
    ensures NameLe(a, b) || NameLe(b, a)
    decreases |a|
  {
    if a != [] && b != [] && a[0] == b[0] {
      NameLeTotal(a[1..], b[1..]);
    }
  }

  /** Each entry's name is at most the next one's. */
  predicate SortedByName(items: seq<Node>)
  {
    forall i :: 0 < i < |items| ==> NameLe(items[i - 1].name, items[i].name)
  }

  /** Put `x` in front of the first entry it does not come after. */
  function Insert(x: Node, items: seq<Node>): (r: seq<Node>)
    requires SortedByName(items)
    ensures SortedByName(r)
    ensures multiset(r) == multiset(items) + multiset{x}
    ensures r[0] == x || (items != [] && r[0] == items[0])
  {
    if items == [] || NameLe(x.name, items[0].name) then [x] + items
    else
      NameLeTotal(x.name, items[0].name);
      var rest := Insert(x, items[1..]);
      assert items == [items[0]] + items[1..];
      assert NameLe(items[0].name, rest[0].name);
      [items[0]] + rest
  }

  /** `items.sort()`: the entries in name order, earlier entries first among equal names. */
  function SortByName(items: seq<Node>): (r: seq<Node>)
    ensures SortedByName(r)
    ensures multiset(r) == multiset(items)
  {
    if items == [] then []
    else
      assert items == [items[0]] + items[1..];
      Insert(items[0], SortByName(items[1..]))
  }

  /** Sorting keeps the entries: each sorted entry is one of the directory's. */
  lemma SortedFromChildren(items: seq<Node>)
    ensures |SortByName(items)| == |items|
    ensures forall i :: 0 <= i < |SortByName(items)| ==> SortByName(items)[i] in items
  {
    var r := SortByName(items);
    assert |r| == |multiset(r)| == |multiset(items)| == |items|;
    forall i | 0 <= i < |r|
      ensures r[i] in items
    {
      assert r[i] in multiset(r);
    }
  }

  /** Names that print no line: label files, images and caches. */
  predicate Ignored(name: string)
  {
    EndsWith(name, ".txt") || EndsWith(name, ".jpg") || EndsWith(name, ".jpeg") || EndsWith(name, ".cache")
  }

  function Connector(isLast: bool): string
  {
    if isLast then "└──" else "├──"
  }

  /** What the prefix of an entry's own entries grows by. */
  function Pad(isLast: bool): string
  {
    if isLast then "    " else "│   "
  }

  /** The line printed for an entry. */
  function EntryLine(item: Node, isLast: bool, prefix: string): string
  {
    prefix + Connector(isLast) + " " + item.name
  }

  /** Every entry of `rest` is an entry of `parent`. */
  predicate ChildrenOf(parent: Node, rest: seq<Node>)
  {
    parent.Dir? && forall i :: 0 <= i < |rest| ==> rest[i] in parent.children
  }

  /** The lines printed for directory `node` under `prefix`; a plain file prints none. */
  function Listing(node: Node, prefix: string): seq<string>
    decreases node, 2, 0
  {
    match node
    case File(_) => []
    case Dir(_, children) =>
      SortedFromChildren(children);
      Entries(node, SortByName(children), prefix)
  }

  /**
   * The lines printed for the last `|rest|` entries of the sorted listing of
   * `parent`: an entry is the last one when it is the last of `rest`.
   */
  function Entries(parent: Node, rest: seq<Node>, prefix: string): seq<string>
    requires ChildrenOf(parent, rest)
    decreases parent, 1, |rest|
  {
    if rest == [] then []
    else OwnLines(rest[0], |rest| == 1, prefix) + Entries(parent, rest[1..], prefix)
  }

  /**
   * The lines one entry prints: none when its name is ignored, otherwise
   * its own line and then, for a directory, its entries under the grown
   * prefix.
   */
  function OwnLines(item: Node, isLast: bool, prefix: string): seq<string>
    decreases item, 3, 0
  {
    if Ignored(item.name) then []
    else [EntryLine(item, isLast, prefix)] + Listing(item, prefix + Pad(isLast))
  }

  /** Where the printed lines go. */
  class Console {
    var lines: seq<string>

    constructor()
      ensures lines == []
    {
      lines := [];
    }

    /** `print(line)`. */
    method Print(line: string)
      modifies this
      ensures lines == old(lines) + [line]
    {
      lines := lines + [line];
    }
  }

  /**
   * `print_directory_structure(root_dir, prefix)`: a root that is not a
   * directory raises ValueError before anything is printed; otherwise the
   * entries in name order, skipping ignored names, each followed by its own
   * entries when it is a directory.
   */
  method PrintDirectoryStructure(root: Node, prefix: string, console: Console) returns (r: Result<(), DirError>)
    modifies console
    ensures r.Failure? <==> root.File?
    ensures r.Failure? ==> r.error == NotADirectory(root.name) && console.lines == old(console.lines)
    ensures r.Success? ==> console.lines == old(console.lines) + Listing(root, prefix)
    decreases root, 2
  {
    if !root.Dir? {
      return Failure(NotADirectory(root.name));
    }
    var items := SortByName(root.children);
    SortedFromChildren(root.children);
    PrintEntries(root, items, prefix, console);
    return Success(());
  }

  /** The `enumerate` loop over the sorted entries of `root`. */
  method PrintEntries(ghost root: Node, items: seq<Node>, prefix: string, console: Console)
    requires ChildrenOf(root, items)
    modifies console
    ensures console.lines == old(console.lines) + Entries(root, items, prefix)
    decreases root, 1
  {
    ghost var printed := old(console.lines) + Entries(root, items, prefix);
    assert items[0..] == items;
    for index := 0 to |items|
      invariant console.lines + Entries(root, items[index..], prefix) == printed
    {
      EntriesStep(root, items, index, prefix);
      ghost var before := console.lines;
      ghost var own := OwnLines(items[index], index == |items| - 1, prefix);
      ghost var rest := Entries(root, items[index + 1..], prefix);
      PrintEntry(root, items[index], index == |items| - 1, prefix, console);
      assert before + (own + rest) == console.lines + rest;
    }
    assert items[|items|..] == [];
  }

  /** The entries from position `index` on: that entry's lines, then the rest. */
  lemma EntriesStep(parent: Node, items: seq<Node>, index: nat, prefix: string)
    requires ChildrenOf(parent, items) && index < |items|
    ensures ChildrenOf(parent, items[index..]) && ChildrenOf(parent, items[index + 1..])
    ensures Entries(parent, items[index..], prefix) ==
              OwnLines(items[index], index == |items| - 1, prefix) + Entries(parent, items[index + 1..], prefix)
  {
    assert items[index..][1..] == items[index + 1..];
  }

  /** One turn of the `enumerate` loop: the entry's line, then its own entries. */
  method PrintEntry(ghost root: Node, item: Node, isLast: bool, prefix: string, console: Console)
    requires root.Dir? && item in root.children
    modifies console
    ensures console.lines == old(console.lines) + OwnLines(item, isLast, prefix)
    decreases root, 0
  {
    if Ignored(item.name) {
      return;
    }
    var connector, newPrefix;
    if isLast {
      connector, newPrefix := "└──", prefix + "    ";
    } else {
      connector, newPrefix := "├──", prefix + "│   ";
    }
    console.Print(prefix + connector + " " + item.name);
    if item.Dir? {
      var _ := PrintDirectoryStructure(item, newPrefix, console);
    }
  }

  /** `p` is a prefix of `s`. */
  predicate StartsWith(s: string, p: string)
  {
    |p| <= |s| && s[..|p|] == p
  }

  /** Every line of a listing starts with its prefix. */
  lemma {:induction false} ListingPrefix(node: Node, prefix: string)
    ensures forall k :: 0 <= k < |Listing(node, prefix)| ==> StartsWith(Listing(node, prefix)[k], prefix)
    decreases node, 2, 0
  {
    if node.Dir? {
      SortedFromChildren(node.children);
      EntriesPrefix(node, SortByName(node.children), prefix);
    }
  }

  lemma {:induction false} EntriesPrefix(parent: Node, rest: seq<Node>, prefix: string)
    requires ChildrenOf(parent, rest)
    ensures forall k :: 0 <= k < |Entries(parent, rest, prefix)| ==> StartsWith(Entries(parent, rest, prefix)[k], prefix)
    decreases parent, 1, |rest|
  {
    if rest != [] {
      EntriesPrefix(parent, rest[1..], prefix);
      OwnLinesPrefix(rest[0], |rest| == 1, prefix);
    }
  }

  lemma {:induction false} OwnLinesPrefix(item: Node, isLast: bool, prefix: string)
    ensures forall k :: 0 <= k < |OwnLines(item, isLast, prefix)| ==> StartsWith(OwnLines(item, isLast, prefix)[k], prefix)
    decreases item, 3, 0
  {
    if !Ignored(item.name) {
      var sub := prefix + Pad(isLast);
      ListingPrefix(item, sub);
      forall k | 0 <= k < |Listing(item, sub)|
        ensures StartsWith(Listing(item, sub)[k], prefix)
      {
        StartsWithLonger(Listing(item, sub)[k], prefix, Pad(isLast));
      }
      var line := EntryLine(item, isLast, prefix);
      assert line == (prefix + Connector(isLast)) + (" " + item.name);
      assert line[..|prefix + Connector(isLast)|] == prefix + Connector(isLast);
      StartsWithLonger(line, prefix, Connector(isLast));
    }
  }

  /** A line that starts with `prefix + more` starts with `prefix`. */
  lemma StartsWithLonger(line: string, prefix: string, more: string)
    requires StartsWith(line, prefix + more)
    ensures StartsWith(line, prefix)
  {
    assert line[..|prefix|] == (prefix + more)[..|prefix|];
  }

  /** The line a last entry gets, and the one the others get, do not start alike. */
  lemma ConnectorsDiffer(line: string, prefix: string, isLast: bool, item: Node)
    requires line == EntryLine(item, isLast, prefix) || StartsWith(line, prefix + Pad(isLast))
    ensures StartsWith(line, prefix + "└──") <==> line == EntryLine(item, true, prefix) && isLast
  {
    if StartsWith(line, prefix + "└──") {
      assert line[|prefix|] == '└';
    }
    if line == EntryLine(item, isLast, prefix) {
      assert line == prefix + Connector(isLast) + (" " + item.name);
      if isLast {
        assert line[..|prefix + "└──"|] == prefix + "└──";
      } else {
        assert line[|prefix|] == '├';
      }
    }
  }

  /** Within the entries `rest`, only the last one can get `└──`, and only when its name is not ignored. */
  lemma {:induction false} EntriesLastOnly(parent: Node, rest: seq<Node>, prefix: string)
    requires ChildrenOf(parent, rest)
    ensures forall k :: 0 <= k < |Entries(parent, rest, prefix)| && StartsWith(Entries(parent, rest, prefix)[k], prefix + "└──") ==>
              rest != [] && !Ignored(rest[|rest| - 1].name) && Entries(parent, rest, prefix)[k] == EntryLine(rest[|rest| - 1], true, prefix)
    decreases |rest|
  {
    if rest != [] {
      var item, isLast := rest[0], |rest| == 1;
      var tail := rest[1..];
      EntriesLastOnly(parent, tail, prefix);
      var lines := Entries(parent, rest, prefix);
      if !Ignored(item.name) {
        var sub := prefix + Pad(isLast);
        var own := [EntryLine(item, isLast, prefix)] + Listing(item, sub);
        ListingPrefix(item, sub);
        assert lines == own + Entries(parent, tail, prefix);
        forall k | 0 <= k < |own|
          ensures StartsWith(own[k], prefix + "└──") <==> own[k] == EntryLine(item, true, prefix) && isLast
        {
          ConnectorsDiffer(own[k], prefix, isLast, item);
        }
      }
    }
  }

  /** When the last of the entries `rest` is not ignored, its line is printed with `└──`. */
  lemma {:induction false} EntriesLastShown(parent: Node, rest: seq<Node>, prefix: string)
    requires ChildrenOf(parent, rest)
    requires rest != [] && !Ignored(rest[|rest| - 1].name)
    ensures EntryLine(rest[|rest| - 1], true, prefix) in Entries(parent, rest, prefix)
    decreases |rest|
  {
    var line := EntryLine(rest[|rest| - 1], true, prefix);
    var own := OwnLines(rest[0], |rest| == 1, prefix);
    var tail := Entries(parent, rest[1..], prefix);
    assert Entries(parent, rest, prefix) == own + tail;
    if |rest| == 1 {
      assert own[0] == line;
    } else {
      assert rest[1..][|rest| - 2] == rest[|rest| - 1];
      EntriesLastShown(parent, rest[1..], prefix);
      assert line in tail;
    }
  }

  /**
   * The last-entry rule, first half: a line of a directory's listing that
   * starts with `prefix + "└──"` is the line of the last entry in name
   * order, and that entry is not ignored. When the last entry is ignored,
   * no entry gets `└──`.
   */
  lemma LastItemOnly(node: Node, prefix: string)
    requires node.Dir?
    ensures var items := SortByName(node.children);
            forall k :: 0 <= k < |Listing(node, prefix)| && StartsWith(Listing(node, prefix)[k], prefix + "└──") ==>
              items != [] && !Ignored(items[|items| - 1].name) && Listing(node, prefix)[k] == EntryLine(items[|items| - 1], true, prefix)
  {
    SortedFromChildren(node.children);
    EntriesLastOnly(node, SortByName(node.children), prefix);
  }

  /**
   * The last-entry rule, second half: when the last entry in name order is
   * not ignored, its line is printed, with `└──`.
   */
  lemma LastItemShown(node: Node, prefix: string)
    requires node.Dir?
    requires var items := SortByName(node.children); items != [] && !Ignored(items[|items| - 1].name)
    ensures var items := SortByName(node.children);
            && EntryLine(items[|items| - 1], true, prefix) in Listing(node, prefix)
            && StartsWith(EntryLine(items[|items| - 1], true, prefix), prefix + "└──")
  {
    var items := SortByName(node.children);
    SortedFromChildren(node.children);
    var last := items[|items| - 1];
    var line := EntryLine(last, true, prefix);
    EntriesLastShown(node, items, prefix);
    assert Listing(node, prefix) == Entries(node, items, prefix);
    assert line == (prefix + "└──") + (" " + last.name);
    assert line[..|prefix + "└──"|] == prefix + "└──";
  }

  /**
   * The number of entries below `node` that print a line, counted on the
   * entries as listed, in whatever order: an ignored entry counts nothing,
   * its own entries included.
   */
  function Shown(node: Node): nat
    decreases node, 2, 0
  {
    if Ignored(node.name) then 0
    else 1 + match node
      case File(_) => 0
      case Dir(_, children) => ShownAll(node, children)
  }

  /** The sum of `Shown` over the entries `rest` of `parent`. */
  function ShownAll(parent: Node, rest: seq<Node>): nat
    requires ChildrenOf(parent, rest)
    decreases parent, 1, |rest|
  {
    if rest == [] then 0 else Shown(rest[0]) + ShownAll(parent, rest[1..])
  }

  /** The entries a directory prints, on its entries as listed. */
  function ShownBelow(node: Node): nat
  {
    if node.Dir? then ShownAll(node, node.children) else 0
  }

  function ShownOf(): Node -> nat
  {
    node => Shown(node)
  }

  /** `ShownAll` is a sum over the entries. */
  lemma {:induction false} ShownAllIsSum(parent: Node, rest: seq<Node>)
    requires ChildrenOf(parent, rest)
    ensures ShownAll(parent, rest) == SumOf(rest, ShownOf())
    decreases |rest|
  {
    if rest != [] {
      ShownAllIsSum(parent, rest[1..]);
      assert rest == [rest[0]] + rest[1..];
      SumOfConcat([rest[0]], rest[1..], ShownOf());
      assert SumOf([rest[0]], ShownOf()) == Shown(rest[0]) by {
        assert [rest[0]][..0] == [];
      }
    }
  }

  /**
   * A listing has one line per entry that is not ignored and not inside an
   * ignored directory: sorting changes the order of the lines, never their
   * number.
   */
  lemma {:induction false} ListingCount(node: Node, prefix: string)
    ensures |Listing(node, prefix)| == ShownBelow(node)
    decreases node, 2, 0
  {
    if node.Dir? {
      var items := SortByName(node.children);
      SortedFromChildren(node.children);
      EntriesCount(node, items, prefix);
      ShownAllIsSum(node, items);
      assert ChildrenOf(node, node.children);
      ShownAllIsSum(node, node.children);
      SumOfPermutation(items, node.children, ShownOf());
    }
  }

  lemma {:induction false} EntriesCount(parent: Node, rest: seq<Node>, prefix: string)
    requires ChildrenOf(parent, rest)
    ensures |Entries(parent, rest, prefix)| == ShownAll(parent, rest)
    decreases parent, 1, |rest|
  {
    if rest != [] {
      var item, isLast := rest[0], |rest| == 1;
      EntriesCount(parent, rest[1..], prefix);
      if !Ignored(item.name) {
        ListingCount(item, prefix + Pad(isLast));
      }
    }
  }
}
