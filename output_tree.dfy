/**
 * A directory tree as the runner leaves it on disk. Every directory keeps its
 * entries in listing order (the order `Path.iterdir` yields them).
 */
module OutputTree {
  import opened Wrappers
  import opened Text

  /** A file whose content cannot be read as text (`open`/`read` raise) has `text == None`. */
  datatype Node = Dir(name: string, entries: seq<Node>) | File(name: string, text: Option<string>)

  /** What `iterdir` lists; a plain file lists nothing. */
  function Entries(n: Node): seq<Node> {
    if n.Dir? then n.entries else []
  }

  /** The first entry called `name` among `es`. */
  function FirstNamed(es: seq<Node>, name: string): (r: Option<Node>)
    ensures r.Some? ==> r.value in es && r.value.name == name
    ensures r.None? ==> forall k :: 0 <= k < |es| ==> es[k].name != name
    decreases |es|
  {
    if es == [] then None
    else if es[0].name == name then Some(es[0])
    else FirstNamed(es[1..], name)
  }

  /** `Path(n) / name`, when it exists. */
  function Lookup(n: Node, name: string): Option<Node> {
    FirstNamed(Entries(n), name)
  }

  /** `(Path(n) / name).exists()` */
  predicate HasEntry(n: Node, name: string) {
    Lookup(n, name).Some?
  }

  /** `Path(n).joinpath(*path)`, when every step exists; a step through a plain file does not. */
  function Resolve(n: Node, path: seq<string>): Option<Node>
    decreases |path|
  {
    if path == [] then Some(n)
    else match Lookup(n, path[0])
      case None => None
      case Some(c) => Resolve(c, path[1..])
  }

  /** `open(n).read()`: a directory cannot be read as a file. */
  function ReadText(n: Node): Option<string> {
    if n.File? then n.text else None
  }

  /** A directory with an entry called `marker`. */
  predicate IsDirWith(n: Node, marker: string) {
    n.Dir? && HasEntry(n, marker)
  }

  /** The index of the first directory among `es` that has an entry called `marker`. */
  function FirstDirWith(es: seq<Node>, marker: string): (r: Option<nat>)
    ensures r.Some? ==> r.value < |es| && IsDirWith(es[r.value], marker)
    ensures r.Some? ==> forall k :: 0 <= k < r.value ==> !IsDirWith(es[k], marker)
    ensures r.None? <==> forall k :: 0 <= k < |es| ==> !IsDirWith(es[k], marker)
    decreases |es|
  {
    if es == [] then None
    else if IsDirWith(es[0], marker) then Some(0)
    else match FirstDirWith(es[1..], marker)
      case None => None
      case Some(k) => Some(k + 1)
  }

  /** The first directory with the marker, found by a scan, is the one `FirstDirWith` names. */
  lemma FirstDirWithAt(es: seq<Node>, marker: string, i: nat)
    requires i < |es| && IsDirWith(es[i], marker)
    requires forall k :: 0 <= k < i ==> !IsDirWith(es[k], marker)
    ensures FirstDirWith(es, marker) == Some(i)
  {
    var r := FirstDirWith(es, marker);
    assert r.Some?;
    assert !(r.value < i);
    assert !(r.value > i);
  }

  /** `sorted` of a list of sibling paths: by name, in code-point order. */
  predicate SortedByName(s: seq<Node>) {
    forall i, j :: 0 <= i < j < |s| ==> LexLe(s[i].name, s[j].name)
  }

  /** Every name in `s` is at least `b`. */
  predicate NamesFrom(b: string, s: seq<Node>) {
    forall k :: 0 <= k < |s| ==> LexLe(b, s[k].name)
  }

  function Insert(x: Node, s: seq<Node>): seq<Node>
    decreases |s|
  {
    if s == [] || LexLe(x.name, s[0].name) then [x] + s
    else [s[0]] + Insert(x, s[1..])
  }

  lemma {:induction false} InsertCounts(x: Node, s: seq<Node>)
    ensures multiset(Insert(x, s)) == multiset(s) + multiset{x}
    decreases |s|
  {
    if s != [] && !LexLe(x.name, s[0].name) {
      InsertCounts(x, s[1..]);
      assert s == [s[0]] + s[1..];
    }
  }

  lemma {:induction false} InsertKeepsBound(b: string, x: Node, s: seq<Node>)
    requires LexLe(b, x.name) && NamesFrom(b, s)
    ensures NamesFrom(b, Insert(x, s))
    decreases |s|
  {
    if s != [] && !LexLe(x.name, s[0].name) {
      InsertKeepsBound(b, x, s[1..]);
    }
  }

  lemma {:induction false} InsertSorted(x: Node, s: seq<Node>)
    requires SortedByName(s)
    ensures SortedByName(Insert(x, s))
    decreases |s|
  {
    var r := Insert(x, s);
    if s == [] {
    } else if LexLe(x.name, s[0].name) {
      forall j | 0 <= j < |s| ensures LexLe(x.name, s[j].name) {
        if j > 0 {
          LexLeTransitive(x.name, s[0].name, s[j].name);
        }
      }
      assert forall j :: 1 <= j < |r| ==> r[j] == s[j - 1];
    } else {
      var rest := Insert(x, s[1..]);
      InsertSorted(x, s[1..]);
      LexLeTotal(x.name, s[0].name);
      InsertKeepsBound(s[0].name, x, s[1..]);
      assert forall j :: 1 <= j < |r| ==> r[j] == rest[j - 1];
    }
  }

  /** Insertion sort by name; it keeps equal names in their listing order. */
  function SortByName(s: seq<Node>): (r: seq<Node>)
    ensures multiset(r) == multiset(s)
    ensures SortedByName(r)
    decreases |s|
  {
    if s == [] then []
    else
      var sortedRest := SortByName(s[1..]);
      InsertCounts(s[0], sortedRest);
      InsertSorted(s[0], sortedRest);
      assert s == [s[0]] + s[1..];
      Insert(s[0], sortedRest)
  }
}
