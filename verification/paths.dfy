/**
  Slash-separated paths: JavaScript's `split('/')`, and the way the record
  store's client libraries turn a collection name and a document id into a
  document reference.

  Both libraries the ledger uses (the browser library behind the server
  actions and the admin library behind the route handlers) build the
  reference the same way. They refuse an empty id and an id containing "//"
  by throwing. Otherwise they split the id on '/' and drop the empty pieces
  that a leading or trailing slash leaves. One remaining component names a
  document of the collection itself. An even number of components names a
  collection, not a document, and is refused. Three or more components name a
  document of a sub-collection.
 */
module Paths {
  import opened Core
  import opened Ordering

  predicate NoSlash(w: string) {
    forall i :: 0 <= i < |w| ==> w[i] != '/'
  }

  /** `s.split('/')`: the maximal slash-free pieces, empty ones included. */
  function Split(s: string): (r: seq<string>)
    ensures |r| >= 1
    ensures forall i :: 0 <= i < |r| ==> NoSlash(r[i])
  {
    if |s| == 0 then [""]
    else if s[0] == '/' then [""] + Split(s[1..])
    else
      var rest := Split(s[1..]);
      [[s[0]] + rest[0]] + rest[1..]
  }

  /** The pieces put back together with '/' between them. */
  function Join(segs: seq<string>): string
    requires |segs| >= 1
  {
    if |segs| == 1 then segs[0] else segs[0] + "/" + Join(segs[1..])
  }

  /** Splitting loses nothing: joining the pieces gives back the path. */
  lemma {:induction false} JoinSplit(s: string)
    ensures Join(Split(s)) == s
  {
    if |s| > 0 {
      JoinSplit(s[1..]);
      var rest := Split(s[1..]);
      if s[0] == '/' {
        assert s == [s[0]] + s[1..];
      } else {
        var head := [s[0]] + rest[0];
        if |rest| == 1 {
          assert Split(s) == [head];
        } else {
          var tail := rest[1..];
          assert rest == [rest[0]] + tail;
          assert Split(s) == [head] + tail;
          assert Join(Split(s)) == head + "/" + Join(tail);
          assert Join(rest) == rest[0] + "/" + Join(tail);
          assert s == [s[0]] + s[1..];
        }
      }
    }
  }

  /** A slash-free word is its own single piece. */
  lemma {:induction false} SplitWord(w: string)
    requires NoSlash(w)
    ensures Split(w) == [w]
  {
    if |w| > 0 {
      SplitWord(w[1..]);
      assert w == [w[0]] + w[1..];
    }
  }

  /** Splitting `w + "/" + t` for a slash-free `w`: `w`, then the pieces of `t`. */
  lemma {:induction false} SplitWordSlash(w: string, t: string)
    requires NoSlash(w)
    ensures Split(w + "/" + t) == [w] + Split(t)
  {
    var s := w + "/" + t;
    if |w| == 0 {
      assert s[0] == '/' && s[1..] == t;
    } else {
      SplitWordSlash(w[1..], t);
      assert s[0] == w[0] && s[1..] == w[1..] + "/" + t;
      assert [w[0]] + w[1..] == w;
    }
  }

  /** Joining slash-free pieces and splitting again gives the same pieces. */
  lemma {:induction false} SplitJoin(segs: seq<string>)
    requires |segs| >= 1
    requires forall i :: 0 <= i < |segs| ==> NoSlash(segs[i])
    ensures Split(Join(segs)) == segs
  {
    if |segs| == 1 {
      SplitWord(segs[0]);
    } else {
      SplitJoin(segs[1..]);
      SplitWordSlash(segs[0], Join(segs[1..]));
      assert segs == [segs[0]] + segs[1..];
    }
  }

  /** Splitting `p + "/" + w` for a slash-free `w`: the pieces of `p`, then `w`. */
  lemma {:induction false} SplitSlashWord(p: string, w: string)
    requires NoSlash(w)
    ensures Split(p + "/" + w) == Split(p) + [w]
    decreases |p|
  {
    var s := p + "/" + w;
    if |p| == 0 {
      assert s[0] == '/' && s[1..] == w;
      SplitWord(w);
    } else {
      SplitSlashWord(p[1..], w);
      assert s[0] == p[0] && s[1..] == p[1..] + "/" + w;
      var rest := Split(p[1..]);
      assert Split(s[1..]) == rest + [w];
      assert |rest| >= 1;
      assert (rest + [w])[0] == rest[0];
      assert (rest + [w])[1..] == rest[1..] + [w];
    }
  }

  // ---------------------------------------------------------------- document references

  /** Some '/' is followed directly by another '/'. */
  predicate DoubleSlash(id: string) {
    exists i :: 0 <= i < |id| - 1 && id[i] == '/' && id[i + 1] == '/'
  }

  function NonEmptyPiece(w: string): bool {
    w != ""
  }

  /** The components of an id: its pieces with the empty ones dropped. */
  function Components(id: string): (r: seq<string>)
    ensures forall i :: 0 <= i < |r| ==> r[i] != "" && NoSlash(r[i])
  {
    var segs := Split(id);
    FilterMembers(segs, NonEmptyPiece);
    Filter(segs, NonEmptyPiece)
  }

  /** Where the reference built from a collection and a document id points. */
  datatype DocRef =
    | Refused
    | InCollection(key: Id)
    | Nested

  /** `collection.doc(id)` in the admin library, `doc(db, collection, id)` in the browser library. */
  function DocRefOf(id: string): (r: DocRef)
    ensures id == "" || DoubleSlash(id) ==> r == Refused
    ensures r.InCollection? ==> r.key != "" && NoSlash(r.key) && Components(id) == [r.key]
  {
    if id == "" || DoubleSlash(id) then Refused
    else
      var cs := Components(id);
      if |cs| % 2 == 0 then Refused
      else if |cs| == 1 then InCollection(cs[0])
      else Nested
  }

  /** A slash-free id with at most one slash before and after it has no "//". */
  lemma NoDoubleSlashAround(p: string, k: string, q: string)
    requires k != "" && NoSlash(k) && |p| <= 1 && |q| <= 1
    ensures !DoubleSlash(p + k + q)
  {
    var id := p + k + q;
    assert forall i :: |p| <= i < |p| + |k| ==> id[i] == k[i - |p|];
    assert |p| == 1 ==> id[1] == k[0];
  }

  /** A plain id names the document with that id, with or without a slash before or after it. */
  lemma PlainIdNamesDocument(k: string)
    requires k != "" && NoSlash(k)
    ensures DocRefOf(k) == InCollection(k)
    ensures DocRefOf("/" + k) == InCollection(k)
    ensures DocRefOf(k + "/") == InCollection(k)
    ensures DocRefOf("/" + k + "/") == InCollection(k)
  {
    SplitWord(k);
    assert DocRefOf(k) == InCollection(k) by {
      NoDoubleSlashAround("", k, "");
      assert "" + k + "" == k;
      PiecesNameDocument(k, k, [k]);
    }
    assert DocRefOf("/" + k) == InCollection(k) by {
      SplitWordSlash("", k);
      assert "" + "/" + k == "/" + k;
      assert [""] + [k] == ["", k];
      NoDoubleSlashAround("/", k, "");
      assert "/" + k + "" == "/" + k;
      PiecesNameDocument("/" + k, k, ["", k]);
    }
    assert DocRefOf(k + "/") == InCollection(k) by {
      SplitSlashWord(k, "");
      assert k + "/" + "" == k + "/";
      assert [k] + [""] == [k, ""];
      NoDoubleSlashAround("", k, "/");
      assert "" + k + "/" == k + "/";
      PiecesNameDocument(k + "/", k, [k, ""]);
    }
    assert DocRefOf("/" + k + "/") == InCollection(k) by {
      SplitSlashWord(k, "");
      assert k + "/" + "" == k + "/";
      SplitWordSlash("", k + "/");
      assert "" + "/" + (k + "/") == "/" + k + "/";
      assert [""] + ([k] + [""]) == ["", k, ""];
      NoDoubleSlashAround("/", k, "/");
      PiecesNameDocument("/" + k + "/", k, ["", k, ""]);
    }
  }

  /** An id without "//" whose pieces are `k` with at most an empty piece on either side names `k`. */
  lemma PiecesNameDocument(id: string, k: string, segs: seq<string>)
    requires k != "" && id != "" && !DoubleSlash(id) && Split(id) == segs
    requires segs == [k] || segs == ["", k] || segs == [k, ""] || segs == ["", k, ""]
    ensures DocRefOf(id) == InCollection(k)
  {
    FilterCons(k, [], NonEmptyPiece);
    FilterCons("", [], NonEmptyPiece);
    FilterCons("", [k], NonEmptyPiece);
    FilterCons(k, [""], NonEmptyPiece);
    FilterCons("", [k, ""], NonEmptyPiece);
    assert [""] + [k] == ["", k];
    assert [k] + [""] == [k, ""];
    assert [""] + [k, ""] == ["", k, ""];
  }

  /** An id with one slash between two names points at a collection, not a document: it is refused. */
  lemma TwoComponentsRefused(a: string, b: string)
    requires a != "" && b != "" && NoSlash(a) && NoSlash(b)
    ensures DocRefOf(a + "/" + b) == Refused
  {
    SplitWordSlash(a, b);
    SplitWord(b);
    FilterCons(b, [], NonEmptyPiece);
    FilterCons(a, [b], NonEmptyPiece);
    assert [a] + [b] == [a, b];
  }

  /** An id with three names points at a document of a sub-collection. */
  lemma ThreeComponentsNested(a: string, b: string, c: string)
    requires a != "" && b != "" && c != "" && NoSlash(a) && NoSlash(b) && NoSlash(c)
    ensures DocRefOf(a + "/" + b + "/" + c) == Nested
  {
    var id := a + "/" + b + "/" + c;
    assert id == a + "/" + (b + "/" + c);
    SplitWordSlash(a, b + "/" + c);
    SplitWordSlash(b, c);
    SplitWord(c);
    FilterCons(c, [], NonEmptyPiece);
    FilterCons(b, [c], NonEmptyPiece);
    FilterCons(a, [b, c], NonEmptyPiece);
    assert [b] + [c] == [b, c];
    assert [a] + [b, c] == [a, b, c];
    NoDoubleSlashBetween(a, b, c);
  }

  lemma NoDoubleSlashBetween(a: string, b: string, c: string)
    requires a != "" && b != "" && c != "" && NoSlash(a) && NoSlash(b) && NoSlash(c)
    ensures !DoubleSlash(a + "/" + b + "/" + c)
  {
    var id := a + "/" + b + "/" + c;
    forall i | 0 <= i < |id| - 1 && id[i] == '/' ensures id[i + 1] != '/' {
      if i == |a| {
        assert id[i + 1] == b[0];
      } else {
        assert i == |a| + 1 + |b|;
        assert id[i + 1] == c[0];
      }
    }
  }

  /** Joining around position `i`: the pieces before it, a slash, and the pieces from it on. */
  lemma {:induction false} JoinAt(segs: seq<string>, i: int)
    requires 0 < i < |segs|
    ensures Join(segs) == Join(segs[..i]) + "/" + Join(segs[i..])
    decreases i
  {
    if i == 1 {
      assert segs[..1] == [segs[0]];
    } else {
      var t := segs[1..];
      JoinAt(t, i - 1);
      assert t[..i - 1] == segs[1..i];
      assert t[i - 1..] == segs[i..];
      assert segs[..i][1..] == segs[1..i];
    }
  }

  /** An empty piece strictly inside the pieces puts "//" into their join. */
  lemma EmptyInteriorPiece(segs: seq<string>, i: int)
    requires 0 < i < |segs| - 1 && segs[i] == ""
    ensures DoubleSlash(Join(segs))
  {
    JoinAt(segs, i);
    var a := Join(segs[..i]);
    var rest := segs[i..];
    assert rest[0] == "";
    var b := Join(rest[1..]);
    assert Join(rest) == "" + "/" + b;
    var id := Join(segs);
    assert id == a + "/" + ("/" + b);
    assert id[|a|] == '/' && id[|a| + 1] == '/';
  }

  /** Unless the id contains "//", only its first and last piece can be empty. */
  lemma InteriorPieces(id: string)
    ensures DoubleSlash(id) || forall i :: 0 < i < |Split(id)| - 1 ==> Split(id)[i] != ""
  {
    var segs := Split(id);
    JoinSplit(id);
    if exists i :: 0 < i < |segs| - 1 && segs[i] == "" {
      var i :| 0 < i < |segs| - 1 && segs[i] == "";
      EmptyInteriorPiece(segs, i);
    }
  }

  /** Pieces with non-empty interior and exactly one component `k`: `k`, with at most an empty piece on either side. */
  lemma SingleComponentPieces(segs: seq<string>, k: string)
    requires forall i :: 0 < i < |segs| - 1 ==> segs[i] != ""
    requires Filter(segs, NonEmptyPiece) == [k]
    ensures segs == [k] || segs == ["", k] || segs == [k, ""] || segs == ["", k, ""]
  {
    if |segs| >= 3 {
      SingleComponentAmongThree(segs, k);
    } else {
      SingleComponentAmongTwo(segs, k);
    }
  }

  lemma SingleComponentAmongThree(segs: seq<string>, k: string)
    requires |segs| >= 3 && forall i :: 0 < i < |segs| - 1 ==> segs[i] != ""
    requires Filter(segs, NonEmptyPiece) == [k]
    ensures segs == ["", k, ""]
  {
    var last := |segs| - 1;
    var mid := segs[1..last];
    assert segs == [segs[0]] + (mid + [segs[last]]);
    FilterConcat([segs[0]], mid + [segs[last]], NonEmptyPiece);
    FilterConcat(mid, [segs[last]], NonEmptyPiece);
    forall j | 0 <= j < |mid| ensures NonEmptyPiece(mid[j]) {
      assert mid[j] == segs[j + 1];
    }
    FilterAllKept(mid, NonEmptyPiece);
    FilterCons(segs[0], [], NonEmptyPiece);
    FilterCons(segs[last], [], NonEmptyPiece);
    assert |mid| == 1 && mid[0] == segs[1];
    assert segs == [segs[0], segs[1], segs[2]];
  }

  lemma SingleComponentAmongTwo(segs: seq<string>, k: string)
    requires |segs| <= 2
    requires Filter(segs, NonEmptyPiece) == [k]
    ensures segs == [k] || segs == ["", k] || segs == [k, ""]
  {
    assert |segs| > 0;
    if |segs| == 2 {
      FilterCons(segs[1], [], NonEmptyPiece);
      FilterCons(segs[0], [segs[1]], NonEmptyPiece);
      assert segs == [segs[0]] + [segs[1]];
    } else {
      FilterCons(segs[0], [], NonEmptyPiece);
      assert segs == [segs[0]] + [];
    }
  }

  /** The converse: an id that names the document `k` is `k`, with at most a slash before and after it. */
  lemma DocumentIdForms(id: string, k: string)
    requires DocRefOf(id) == InCollection(k)
    ensures id == k || id == "/" + k || id == k + "/" || id == "/" + k + "/"
  {
    var segs := Split(id);
    InteriorPieces(id);
    SingleComponentPieces(segs, k);
    JoinSplit(id);
    assert Join(["", k]) == "" + "/" + k;
    assert Join([k, ""]) == k + "/" + "";
    assert ["", k, ""][1..] == [k, ""];
    assert Join(["", k, ""]) == "" + "/" + (k + "/" + "");
  }
}
