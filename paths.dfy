/**
 * POSIX paths as Python's `pathlib.PurePosixPath` reads and prints them:
 * `Path(p).parts`, `str(Path(p))` and `Path(a) / b`.
 */
module Paths {

  /** `s.split(sep)`: the pieces between occurrences of `sep`; there is always at least one. */
  function Split(s: string, sep: char): (r: seq<string>)
    ensures |r| >= 1
    decreases |s|
  {
    if s == [] then [""]
    else if s[0] == sep then [""] + Split(s[1..], sep)
    else var rest := Split(s[1..], sep); [[s[0]] + rest[0]] + rest[1..]
  }

  /** `sep.join(parts)` */
  function JoinWith(parts: seq<string>, sep: char): string
    decreases |parts|
  {
    if parts == [] then ""
    else if |parts| == 1 then parts[0]
    else parts[0] + [sep] + JoinWith(parts[1..], sep)
  }

  lemma {:induction false} SplitPrefix(p: string, t: string, sep: char)
    requires sep !in p
    ensures Split(p + t, sep) == [p + Split(t, sep)[0]] + Split(t, sep)[1..]
    decreases |p|
  {
    if p != [] {
      assert (p + t)[1..] == p[1..] + t;
      SplitPrefix(p[1..], t, sep);
      assert [p[0]] + (p[1..] + Split(t, sep)[0]) == p + Split(t, sep)[0];
    } else {
      assert p + t == t;
      var r := Split(t, sep);
      assert p + r[0] == r[0];
      assert r == [r[0]] + r[1..];
    }
  }

  /** Splitting what was joined gives the pieces back, when no piece holds the separator. */
  lemma {:induction false} SplitJoin(parts: seq<string>, sep: char)
    requires |parts| >= 1
    requires forall k :: 0 <= k < |parts| ==> sep !in parts[k]
    ensures Split(JoinWith(parts, sep), sep) == parts
    decreases |parts|
  {
    if |parts| == 1 {
      SplitPrefix(parts[0], "", sep);
      assert parts[0] + "" == parts[0];
    } else {
      var rest := JoinWith(parts[1..], sep);
      SplitJoin(parts[1..], sep);
      assert parts[0] + [sep] + rest == parts[0] + ([sep] + rest);
      SplitPrefix(parts[0], [sep] + rest, sep);
      assert ([sep] + rest)[1..] == rest;
      assert parts[0] + "" == parts[0];
      assert parts == [parts[0]] + parts[1..];
    }
  }

  /** The pieces of a split path that name something: empty pieces and "." are dropped. */
  function Names(pieces: seq<string>): (r: seq<string>)
    ensures |r| <= |pieces|
    ensures forall k :: 0 <= k < |r| ==> r[k] != "" && r[k] != "." && r[k] in pieces
    decreases |pieces|
  {
    if pieces == [] then []
    else if pieces[0] == "" || pieces[0] == "." then Names(pieces[1..])
    else [pieces[0]] + Names(pieces[1..])
  }

  lemma {:induction false} NamesOfNames(pieces: seq<string>)
    requires forall k :: 0 <= k < |pieces| ==> pieces[k] != "" && pieces[k] != "."
    ensures Names(pieces) == pieces
    decreases |pieces|
  {
    if pieces != [] {
      NamesOfNames(pieces[1..]);
    }
  }

  predicate IsAbsolute(p: string) {
    p != [] && p[0] == '/'
  }

  /** The named components of `p`, without the root. */
  function Components(p: string): (r: seq<string>)
    ensures forall k :: 0 <= k < |r| ==> r[k] != "" && r[k] != "." && '/' !in r[k]
  {
    var pieces := Split(p, '/');
    assert forall k :: 0 <= k < |pieces| ==> '/' !in pieces[k] by {
      SplitPiecesFree(p, '/');
    }
    Names(pieces)
  }

  lemma {:induction false} SplitPiecesFree(s: string, sep: char)
    ensures forall k :: 0 <= k < |Split(s, sep)| ==> sep !in Split(s, sep)[k]
    decreases |s|
  {
    if s != [] {
      SplitPiecesFree(s[1..], sep);
    }
  }

  /** `Path(p).parts`: the root "/" for an absolute path, then the components. */
  function Parts(p: string): seq<string> {
    (if IsAbsolute(p) then ["/"] else []) + Components(p)
  }

  /** `str(Path(p))` */
  function NormalizePath(p: string): string {
    if IsAbsolute(p) then "/" + JoinWith(Components(p), '/')
    else if Components(p) == [] then "."
    else JoinWith(Components(p), '/')
  }

  /** `str(Path(base) / name)`: a name that is itself absolute replaces the base. */
  function JoinPath(base: string, name: string): string {
    if IsAbsolute(name) then NormalizePath(name) else NormalizePath(NormalizePath(base) + "/" + name)
  }

  lemma {:induction false} ComponentsOfJoined(cs: seq<string>)
    requires forall k :: 0 <= k < |cs| ==> cs[k] != "" && cs[k] != "." && '/' !in cs[k]
    ensures Components(JoinWith(cs, '/')) == cs
  {
    if cs == [] {
      assert Split("", '/') == [""];
    } else {
      SplitJoin(cs, '/');
      NamesOfNames(cs);
    }
  }

  lemma {:induction false} JoinedStart(cs: seq<string>)
    requires cs != [] && cs[0] != ""
    ensures JoinWith(cs, '/') != [] && JoinWith(cs, '/')[0] == cs[0][0]
  {
    if |cs| > 1 {
      assert JoinWith(cs, '/') == cs[0] + ([ '/' ] + JoinWith(cs[1..], '/'));
    }
  }

  /**
   * Printing a parsed path and parsing it again changes nothing: the printed
   * form keeps the root and the components.
   */
  lemma {:induction false} NormalizeKeepsParts(p: string)
    ensures Parts(NormalizePath(p)) == Parts(p)
  {
    var cs := Components(p);
    var q := NormalizePath(p);
    if IsAbsolute(p) {
      var j := JoinWith(cs, '/');
      assert q == "/" + j;
      assert Split(q, '/') == [""] + Split(j, '/');
      assert Names(Split(q, '/')) == Names(Split(j, '/'));
      ComponentsOfJoined(cs);
    } else if cs == [] {
      assert q == ".";
      assert Split(".", '/') == ["."] by {
        assert "."[1..] == "";
        assert Split("", '/') == [""];
        assert ['.'] + Split("", '/')[0] == ".";
        assert [""][1..] == [];
      }
      assert Components(q) == [];
    } else {
      ComponentsOfJoined(cs);
      JoinedStart(cs);
      assert cs[0] != "" && cs[0][0] != '/' by {
        assert '/' !in cs[0];
      }
    }
  }

  /** `str(Path(str(Path(p)))) == str(Path(p))` */
  lemma NormalizeIdempotent(p: string)
    ensures NormalizePath(NormalizePath(p)) == NormalizePath(p)
  {
    NormalizeKeepsParts(p);
    var q := NormalizePath(p);
    assert IsAbsolute(q) == IsAbsolute(p);
    assert Components(q) == Components(p) by {
      if IsAbsolute(p) {
        assert Parts(q) == ["/"] + Components(q);
        assert Parts(p) == ["/"] + Components(p);
        assert Components(q) == Parts(q)[1..];
      } else {
        assert Parts(q) == Components(q);
        assert Parts(p) == Components(p);
      }
    }
  }
}
