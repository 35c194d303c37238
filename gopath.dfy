/**
 * The lexical rules of Go's `path` package that the module-name resolver relies
 * on: `Clean`, `Split` and `Join` on slash-separated paths.
 *
 * `Clean` is defined on path elements: the path is cut at every '/', empty
 * elements and "." are dropped, ".." removes the element kept before it (unless
 * that one is itself ".."), a ".." that has nothing to remove is dropped from a
 * rooted path and kept in a relative one, and the kept elements are joined with
 * single slashes behind a leading '/' for a rooted path. A relative path that
 * keeps nothing becomes ".".
 */
module GoPath {

  /** A path element as `Clean` keeps it: non-empty and free of slashes. */
  predicate IsElem(e: string) {
    e != [] && '/' !in e
  }

  predicate AllElems(es: seq<string>) {
    forall i :: 0 <= i < |es| ==> IsElem(es[i])
  }

  /** Length of the leading run of characters that are not '/'. */
  function LeadingRun(p: string): (n: nat)
    ensures n <= |p|
    ensures forall i :: 0 <= i < n ==> p[i] != '/'
    ensures n < |p| ==> p[n] == '/'
  {
    if p == [] || p[0] == '/' then 0 else 1 + LeadingRun(p[1..])
  }

  /** The non-empty slash-separated elements of `p`, left to right. */
  function Fields(p: string): (r: seq<string>)
    ensures AllElems(r)
  {
    if p == [] then []
    else if p[0] == '/' then Fields(p[1..])
    else
      var n := LeadingRun(p);
      [p[..n]] + Fields(p[n..])
  }

  /** The elements joined with single slashes. */
  function JoinSlash(es: seq<string>): string {
    if es == [] then []
    else if |es| == 1 then es[0]
    else es[0] + "/" + JoinSlash(es[1..])
  }

  /** The stack of kept elements after reading one more element `e`. */
  function Step(kept: seq<string>, e: string, rooted: bool): seq<string> {
    if e == "." then kept
    else if e == ".." then
      if kept != [] && kept[|kept| - 1] != ".." then kept[..|kept| - 1]
      else if rooted then kept
      else kept + [".."]
    else kept + [e]
  }

  /** The stack of kept elements after reading all of `es`, left to right. */
  function Reduce(es: seq<string>, rooted: bool): seq<string>
    decreases |es|
  {
    if es == [] then [] else Step(Reduce(es[..|es| - 1], rooted), es[|es| - 1], rooted)
  }

  predicate IsRooted(p: string) {
    p != [] && p[0] == '/'
  }

  /**
   * Go's `path.Clean`: the shortest path lexically equivalent to `p`. It is
   * never empty, and it ends in '/' only when it is the root "/" itself.
   */
  function Clean(p: string): (r: string)
    ensures r != []
    ensures r[|r| - 1] == '/' <==> r == "/"
  {
    var kept := Reduce(Fields(p), IsRooted(p));
    ReduceIsNormal(Fields(p), IsRooted(p));
    JoinSlashShape(kept);
    if IsRooted(p) then "/" + JoinSlash(kept)
    else if kept == [] then "."
    else JoinSlash(kept)
  }

  /** Index of the last '/' in `p`, or -1 when there is none. */
  function LastSlash(p: string): (i: int)
    ensures -1 <= i < |p|
    ensures 0 <= i ==> p[i] == '/'
    ensures forall j :: i < j < |p| ==> p[j] != '/'
  {
    if p == [] then -1
    else if p[|p| - 1] == '/' then |p| - 1
    else LastSlash(p[..|p| - 1])
  }

  /**
   * Go's `path.Split`: cuts `p` just after its last slash into a directory part
   * and a file part; the two concatenate back to `p`, and the file part holds no
   * slash.
   */
  function Split(p: string): (r: (string, string))
    ensures r.0 + r.1 == p
    ensures '/' !in r.1
    ensures r.0 == [] || r.0[|r.0| - 1] == '/'
  {
    var i := LastSlash(p);
    (p[..i + 1], p[i + 1..])
  }

  /**
   * Go's `path.Join` of two elements: the non-empty elements joined with one
   * slash, then cleaned; an empty first element contributes nothing, and two
   * empty elements give the empty string. Any other result is already clean.
   */
  function Join(a: string, b: string): (r: string)
    ensures r == [] <==> a == [] && b == []
    ensures r != [] ==> Clean(r) == r
  {
    if a == [] then
      if b == [] then [] else CleanIdempotent(b); Clean(b)
    else
      CleanIdempotent(a + "/" + b); Clean(a + "/" + b)
  }

  // ---------------------------------------------------------------------------
  // The shape of a stack of kept elements.

  /**
   * What `Reduce` leaves behind: elements without "." and, in a relative path,
   * ".." only as a leading run; a rooted path keeps no ".." at all.
   */
  predicate Normal(kept: seq<string>, rooted: bool) {
    AllElems(kept) &&
    (forall i :: 0 <= i < |kept| ==> kept[i] != ".") &&
    (rooted ==> forall i :: 0 <= i < |kept| ==> kept[i] != "..") &&
    (forall i, j :: 0 <= i < j < |kept| && kept[j] == ".." ==> kept[i] == "..")
  }

  lemma {:induction false} ReduceIsNormal(es: seq<string>, rooted: bool)
    requires AllElems(es)
    ensures Normal(Reduce(es, rooted), rooted)
    decreases |es|
  {
    if es != [] {
      var init := es[..|es| - 1];
      assert AllElems(init) by {
        forall i | 0 <= i < |init| ensures IsElem(init[i]) { assert init[i] == es[i]; }
      }
      ReduceIsNormal(init, rooted);
      var kept := Reduce(init, rooted);
      var e := es[|es| - 1];
      assert IsElem(e);
      if e == ".." && !(kept != [] && kept[|kept| - 1] != "..") && !rooted {
        // Every kept element is ".." here, so one more ".." keeps the run leading.
        var r := kept + [".."];
        forall i, j | 0 <= i < j < |r| && r[j] == ".." ensures r[i] == ".." {
          if j < |kept| {
            assert r[i] == kept[i] && r[j] == kept[j];
          } else if kept != [] {
            assert kept[|kept| - 1] == "..";
            if i < |kept| - 1 { assert kept[i] == ".."; }
          }
        }
      }
    }
  }

  lemma {:induction false} NormalPrefix(kept: seq<string>, rooted: bool, n: nat)
    requires Normal(kept, rooted) && n <= |kept|
    ensures Normal(kept[..n], rooted)
  {
    var p := kept[..n];
    assert forall i :: 0 <= i < |p| ==> p[i] == kept[i];
  }

  /** A stack already in normal form is left as it is by `Reduce`. */
  lemma {:induction false} ReduceOfNormal(kept: seq<string>, rooted: bool)
    requires Normal(kept, rooted)
    ensures Reduce(kept, rooted) == kept
    decreases |kept|
  {
    if kept != [] {
      var n := |kept| - 1;
      var init := kept[..n];
      NormalPrefix(kept, rooted, n);
      ReduceOfNormal(init, rooted);
      var e := kept[n];
      assert e != ".";
      if e == ".." {
        assert !rooted;
        assert init == [] || init[|init| - 1] == ".." by {
          if init != [] { assert init[|init| - 1] == kept[n - 1]; }
        }
        assert init + [".."] == kept;
      } else {
        assert init + [e] == kept;
      }
    }
  }

  // ---------------------------------------------------------------------------
  // Cutting a joined path back into its elements.

  lemma {:induction false} LeadingRunOfConcat(a: string, b: string)
    requires '/' !in a
    requires b == [] || b[0] == '/'
    ensures LeadingRun(a + b) == |a|
    decreases |a|
  {
    if a != [] {
      assert (a + b)[0] == a[0];
      assert (a + b)[1..] == a[1..] + b;
      LeadingRunOfConcat(a[1..], b);
    } else {
      assert a + b == b;
    }
  }

  lemma {:induction false} FieldsOfElemThen(e: string, rest: string)
    requires IsElem(e)
    requires rest == [] || rest[0] == '/'
    ensures Fields(e + rest) == [e] + Fields(rest)
  {
    LeadingRunOfConcat(e, rest);
    var p := e + rest;
    assert p[0] == e[0];
    assert p[..|e|] == e;
    assert p[|e|..] == rest;
  }

  lemma {:induction false} JoinSlashShape(es: seq<string>)
    requires AllElems(es)
    ensures es != [] ==> JoinSlash(es) != []
    ensures es != [] ==> JoinSlash(es)[0] != '/'
    ensures es != [] ==> JoinSlash(es)[|JoinSlash(es)| - 1] != '/'
    decreases |es|
  {
    if es == [] { return; }
    assert IsElem(es[0]);
    if |es| > 1 {
      var tail := es[1..];
      assert AllElems(tail) by {
        forall i | 0 <= i < |tail| ensures IsElem(tail[i]) { assert tail[i] == es[i + 1]; }
      }
      JoinSlashShape(tail);
      var j := JoinSlash(tail);
      assert JoinSlash(es) == es[0] + ("/" + j);
      assert JoinSlash(es)[|JoinSlash(es)| - 1] == j[|j| - 1];
    } else {
      assert es[0][0] in es[0];
      assert es[0][|es[0]| - 1] in es[0];
    }
  }

  /** Joining elements and cutting the result again gives back the elements. */
  lemma {:induction false} FieldsOfJoinSlash(es: seq<string>)
    requires AllElems(es)
    ensures Fields(JoinSlash(es)) == es
    decreases |es|
  {
    if es == [] {
    } else if |es| == 1 {
      assert IsElem(es[0]);
      FieldsOfElemThen(es[0], []);
      assert es[0] + [] == es[0];
    } else {
      var tail := es[1..];
      assert AllElems(tail) by {
        forall i | 0 <= i < |tail| ensures IsElem(tail[i]) { assert tail[i] == es[i + 1]; }
      }
      assert IsElem(es[0]);
      var rest := "/" + JoinSlash(tail);
      assert JoinSlash(es) == es[0] + rest;
      FieldsOfElemThen(es[0], rest);
      assert rest[1..] == JoinSlash(tail);
      FieldsOfJoinSlash(tail);
      assert [es[0]] + tail == es;
    }
  }

  // ---------------------------------------------------------------------------
  // Properties of Clean.

  /** Cleaning is idempotent. */
  lemma CleanIdempotent(p: string)
    ensures Clean(Clean(p)) == Clean(p)
  {
    var rooted := IsRooted(p);
    var kept := Reduce(Fields(p), rooted);
    ReduceIsNormal(Fields(p), rooted);
    var c := Clean(p);
    if rooted {
      assert c == "/" + JoinSlash(kept);
      assert IsRooted(c);
      assert c[1..] == JoinSlash(kept);
      FieldsOfJoinSlash(kept);
      assert Fields(c) == kept;
      ReduceOfNormal(kept, true);
    } else if kept == [] {
      assert c == ".";
      assert Fields(c) == ["."] by {
        FieldsOfElemThen(".", []);
        assert "." + [] == c;
      }
      assert Reduce(["."], false) == [] by { assert ["."][..0] == []; }
    } else {
      JoinSlashShape(kept);
      assert !IsRooted(c);
      FieldsOfJoinSlash(kept);
      ReduceOfNormal(kept, false);
    }
  }

  /** A relative path already made of normal elements is its own cleaned form. */
  lemma CleanOfNormal(kept: seq<string>)
    requires kept != [] && Normal(kept, false)
    ensures Clean(JoinSlash(kept)) == JoinSlash(kept)
  {
    JoinSlashShape(kept);
    FieldsOfJoinSlash(kept);
    ReduceOfNormal(kept, false);
  }

  lemma {:induction false} LeadingRunWithSlash(p: string)
    ensures LeadingRun(p + "/") == LeadingRun(p)
    decreases |p|
  {
    if p != [] {
      assert (p + "/")[0] == p[0];
      if p[0] != '/' {
        assert (p + "/")[1..] == p[1..] + "/";
        LeadingRunWithSlash(p[1..]);
      }
    }
  }

  /** A trailing slash adds no element. */
  lemma {:induction false} FieldsWithSlash(p: string)
    ensures Fields(p + "/") == Fields(p)
    decreases |p|
  {
    var q := p + "/";
    if p == [] {
      assert q[1..] == [];
    } else if p[0] == '/' {
      assert q[0] == '/';
      assert q[1..] == p[1..] + "/";
      FieldsWithSlash(p[1..]);
    } else {
      var n := LeadingRun(p);
      LeadingRunWithSlash(p);
      assert q[0] == p[0];
      assert q[..n] == p[..n];
      assert q[n..] == p[n..] + "/";
      FieldsWithSlash(p[n..]);
    }
  }

  /** Cleaning ignores a trailing slash on any non-empty path. */
  lemma CleanIgnoresTrailingSlash(p: string)
    requires p != []
    ensures Clean(p + "/") == Clean(p)
  {
    FieldsWithSlash(p);
    assert (p + "/")[0] == p[0];
  }

  /** Joining "/" and a plain element gives that element under the root. */
  lemma JoinRootElem(e: string)
    requires IsElem(e) && e != "." && e != ".."
    ensures Join("/", e) == "/" + e
  {
    var p := "/" + "/" + e;
    assert p[1..] == "/" + e && p[1..][1..] == e;
    FieldsOfElemThen(e, []);
    assert e + [] == e;
    assert Fields(p) == [e];
    assert Reduce([e], true) == [e] by { assert [e][..0] == []; }
  }

  lemma {:induction false} JoinSlashSnoc(es: seq<string>, e: string)
    requires es != []
    ensures JoinSlash(es + [e]) == JoinSlash(es) + "/" + e
    decreases |es|
  {
    if |es| == 1 {
      assert (es + [e])[1..] == [e];
    } else {
      assert (es + [e])[1..] == es[1..] + [e];
      JoinSlashSnoc(es[1..], e);
    }
  }

  /**
   * Joining a clean relative directory and a plain element puts exactly one
   * slash between them and changes nothing else.
   */
  lemma JoinRelativeElem(kept: seq<string>, e: string)
    requires kept != [] && Normal(kept, false)
    requires IsElem(e) && e != "." && e != ".."
    ensures Join(JoinSlash(kept), e) == JoinSlash(kept) + "/" + e == JoinSlash(kept + [e])
  {
    JoinSlashShape(kept);
    JoinSlashSnoc(kept, e);
    var k := kept + [e];
    assert forall i :: 0 <= i < |kept| ==> k[i] == kept[i];
    assert Normal(k, false);
    CleanOfNormal(k);
  }

  /** The file part of `Split(p)` is empty exactly when `p` is empty or ends in '/'. */
  lemma SplitFileEmpty(p: string)
    ensures Split(p).1 == [] <==> (p == [] || p[|p| - 1] == '/')
  {
  }
}
