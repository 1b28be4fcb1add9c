/**
 * The frame demultiplexer `OV.result2JSON`. The appliance writes several JSON
 * objects back to back into one response body; the client cuts the body at
 * every "}{" (leftmost first, never overlapping, like `String.split`), puts
 * back the brace lost on each side of every cut and parses each piece in
 * order. A body without "}{" is parsed as one document.
 */
module Demux {
  import opened Wrappers
  import opened Json

  /** The two-character frame boundary "}{" starts at position i of s. */
  predicate BoundaryAt(s: string, i: int)
  {
    0 <= i < |s| - 1 && s[i] == '}' && s[i + 1] == '{'
  }

  predicate HasBoundary(s: string)
  {
    exists i | 0 <= i < |s| :: BoundaryAt(s, i)
  }

  /** `s.split("}{")`: the pieces between the leftmost non-overlapping boundaries. */
  function Split(s: string): (parts: seq<string>)
    ensures |parts| >= 1
    decreases |s|
  {
    if |s| < 2 then [s]
    else if BoundaryAt(s, 0) then [""] + Split(s[2..])
    else
      var rest := Split(s[1..]);
      [[s[0]] + rest[0]] + rest[1..]
  }

  /** The number of boundaries `split` cuts at: leftmost first, never overlapping. */
  function Count(s: string): nat
    decreases |s|
  {
    if |s| < 2 then 0
    else if BoundaryAt(s, 0) then 1 + Count(s[2..])
    else Count(s[1..])
  }

  /** `parts.join("}{")`. */
  function Join(parts: seq<string>): string
    requires |parts| >= 1
  {
    if |parts| == 1 then parts[0] else parts[0] + "}{" + Join(parts[1..])
  }

  /** The concatenation of a sequence of texts. */
  function Concat(texts: seq<string>): string
  {
    if texts == [] then "" else texts[0] + Concat(texts[1..])
  }

  /** The text parsed for piece i of a body cut into two or more pieces (the `switch (idx)` of result2JSON). */
  function Fragment(parts: seq<string>, i: nat): string
    requires 2 <= |parts| && i < |parts|
  {
    if i == 0 then parts[i] + "}"
    else if i == |parts| - 1 then "{" + parts[i]
    else "{" + parts[i] + "}"
  }

  function Reassemble(parts: seq<string>): (texts: seq<string>)
    requires 2 <= |parts|
    ensures |texts| == |parts|
    ensures forall i :: 0 <= i < |parts| ==> texts[i] == Fragment(parts, i)
  {
    seq(|parts|, i requires 0 <= i < |parts| => Fragment(parts, i))
  }

  /** The texts handed to JSON.parse, in order: the whole body when it has no boundary. */
  function Fragments(body: string): (texts: seq<string>)
    ensures |texts| == |Split(body)|
  {
    var parts := Split(body);
    if |parts| < 2 then [body] else Reassemble(parts)
  }

  /** Parses every text in order; fails as a whole as soon as one text does not parse. */
  function ParseAll(parse: string -> Option<Json>, texts: seq<string>): (r: Option<seq<Json>>)
    ensures r.Some? <==> forall i :: 0 <= i < |texts| ==> parse(texts[i]).Some?
    ensures r.Some? ==> |r.value| == |texts|
    ensures r.Some? ==> forall i :: 0 <= i < |texts| ==> r.value[i] == parse(texts[i]).value
  {
    if texts == [] then Some([])
    else
      match parse(texts[0])
      case None => None
      case Some(v) =>
        match ParseAll(parse, texts[1..])
        case None => None
        case Some(vs) => Some([v] + vs)
  }

  /** What result2JSON returns, or None when it throws. */
  function Demux(parse: string -> Option<Json>, body: string): (r: Option<seq<Json>>)
    ensures r.Some? ==> |r.value| == |Split(body)| >= 1
  {
    ParseAll(parse, Fragments(body))
  }

  /** `OV.result2JSON`: the parse of each piece of the split, in order, or None when one fails. */
  method Result2Json(body: string, parse: string -> Option<Json>) returns (frames: Option<seq<Json>>)
    ensures frames == Demux(parse, body)
  {
    var x := Split(body);
    if |x| < 2 {
      var doc := parse(body);
      ParseOne(parse, body);
      if doc.None? {
        return None;
      }
      return Some([doc.value]);
    }
    frames := ParseFragments(x, parse);
  }

  /** The `forEach` over the pieces: restores the braces of piece idx and writes its parse at position idx. */
  method ParseFragments(x: seq<string>, parse: string -> Option<Json>) returns (frames: Option<seq<Json>>)
    requires |x| >= 2
    ensures frames == ParseAll(parse, Reassemble(x))
  {
    ghost var texts := Reassemble(x);
    var parsed := new Json[|x|];
    for idx := 0 to |x|
      invariant forall k :: 0 <= k < idx ==> parse(texts[k]).Some? && parsed[k] == parse(texts[k]).value
    {
      var text := if idx == 0 then x[idx] + "}" else if idx == |x| - 1 then "{" + x[idx] else "{" + x[idx] + "}";
      assert text == texts[idx];
      var doc := parse(text);
      if doc.None? {
        return None;
      }
      parsed[idx] := doc.value;
    }
    ghost var all := ParseAll(parse, texts);
    assert all.Some? && |all.value| == parsed.Length;
    assert parsed[..] == all.value;
    frames := Some(parsed[..]);
  }

  lemma ParseOne(parse: string -> Option<Json>, text: string)
    ensures ParseAll(parse, [text]) == if parse(text).Some? then Some([parse(text).value]) else None
  {
    assert [text][1..] == [];
    assert ParseAll(parse, [text][1..]) == Some([]);
    if parse(text).Some? {
      assert [parse(text).value] + [] == [parse(text).value];
    }
  }

  // ---------------------------------------------------------------------
  // The split: its size, its round trip, and its uniqueness.
  // ---------------------------------------------------------------------

  /** The split has one piece more than there are boundaries. */
  lemma {:induction false} SplitCount(s: string)
    ensures |Split(s)| == Count(s) + 1
    decreases |s|
  {
    if |s| < 2 {
    } else if BoundaryAt(s, 0) {
      SplitCount(s[2..]);
    } else {
      SplitCount(s[1..]);
    }
  }

  /** Joining the pieces with "}{" gives back the body. */
  lemma {:induction false} SplitJoin(s: string)
    ensures Join(Split(s)) == s
    decreases |s|
  {
    if |s| < 2 {
    } else if BoundaryAt(s, 0) {
      var rest := Split(s[2..]);
      SplitJoin(s[2..]);
      JoinEmptyFirst(rest);
      assert s == "}{" + s[2..];
    } else {
      var rest := Split(s[1..]);
      SplitJoin(s[1..]);
      JoinExtendFirst(s[0], rest);
      assert s == [s[0]] + s[1..];
    }
  }

  lemma JoinEmptyFirst(rest: seq<string>)
    requires |rest| >= 1
    ensures Join([""] + rest) == "}{" + Join(rest)
  {
    assert ([""] + rest)[1..] == rest;
    assert "" + "}{" + Join(rest) == "}{" + Join(rest);
  }

  lemma JoinExtendFirst(c: char, rest: seq<string>)
    requires |rest| >= 1
    ensures Join([[c] + rest[0]] + rest[1..]) == [c] + Join(rest)
  {
    if |rest| == 1 {
      assert [[c] + rest[0]] + rest[1..] == [[c] + rest[0]];
    } else {
      JoinExtendFirstMany(c, rest);
    }
  }

  lemma JoinExtendFirstMany(c: char, rest: seq<string>)
    requires |rest| >= 2
    ensures Join([[c] + rest[0]] + rest[1..]) == [c] + Join(rest)
  {
    var j := Join(rest[1..]);
    JoinCons([c] + rest[0], rest[1..]);
    JoinCons(rest[0], rest[1..]);
    assert [rest[0]] + rest[1..] == rest;
    AppendAssoc([c], rest[0], "}{" + j);
  }

  /** Joining a piece in front of at least one other puts "}{" between them. */
  lemma JoinCons(p: string, ps: seq<string>)
    requires |ps| >= 1
    ensures Join([p] + ps) == p + ("}{" + Join(ps))
  {
    assert ([p] + ps)[1..] == ps;
  }

  lemma AppendAssoc(a: string, b: string, c: string)
    ensures (a + b) + c == a + (b + c)
  {
  }

  /** The body has a boundary exactly when split cuts it at least once. */
  lemma {:induction false} CountZeroIff(s: string)
    ensures Count(s) == 0 <==> !HasBoundary(s)
    decreases |s|
  {
    if |s| < 2 {
      assert forall i :: !BoundaryAt(s, i);
    } else if BoundaryAt(s, 0) {
    } else {
      CountZeroIff(s[1..]);
      if HasBoundary(s) {
        var i: int :| 0 <= i < |s| && BoundaryAt(s, i);
        assert BoundaryAt(s[1..], i - 1);
      }
      if HasBoundary(s[1..]) {
        var i: int :| 0 <= i < |s[1..]| && BoundaryAt(s[1..], i);
        assert BoundaryAt(s, i + 1);
      }
    }
  }

  /** A body without "}{" is not cut at all. */
  lemma NoBoundarySplit(s: string)
    requires !HasBoundary(s)
    ensures Split(s) == [s]
  {
    CountZeroIff(s);
    SplitCount(s);
    SplitJoin(s);
  }

  lemma DropFirstKeepsNoBoundary(p: string)
    requires |p| >= 1 && !HasBoundary(p)
    ensures !HasBoundary(p[1..])
  {
    forall i | 0 <= i < |p[1..]|
      ensures !BoundaryAt(p[1..], i)
    {
      assert !BoundaryAt(p, i + 1);
    }
  }

  /** A piece without "}{" followed by a boundary is exactly the first piece of the split. */
  lemma {:induction false} SplitAfterPiece(p: string, t: string)
    requires !HasBoundary(p)
    ensures Split(p + "}{" + t) == [p] + Split(t)
    decreases |p|
  {
    var s := p + "}{" + t;
    if |p| == 0 {
      assert s == "}{" + t && BoundaryAt(s, 0) && s[2..] == t;
    } else {
      assert !BoundaryAt(s, 0) by {
        if |p| >= 2 {
          assert !BoundaryAt(p, 0);
        } else {
          assert s[1] == '}';
        }
      }
      var p' := p[1..];
      DropFirstKeepsNoBoundary(p);
      assert s[1..] == p' + "}{" + t;
      SplitAfterPiece(p', t);
      assert [s[0]] + p' == p;
    }
  }

  /** Splitting undoes joining pieces that contain no "}{". */
  lemma {:induction false} JoinSplit(parts: seq<string>)
    requires |parts| >= 1
    requires forall i :: 0 <= i < |parts| ==> !HasBoundary(parts[i])
    ensures Split(Join(parts)) == parts
    decreases |parts|
  {
    if |parts| == 1 {
      NoBoundarySplit(parts[0]);
    } else {
      JoinSplit(parts[1..]);
      SplitAfterPiece(parts[0], Join(parts[1..]));
      assert [parts[0]] + parts[1..] == parts;
    }
  }

  lemma JoinStartsWithFirst(parts: seq<string>)
    requires |parts| >= 1
    ensures |parts[0]| <= |Join(parts)| && Join(parts)[..|parts[0]|] == parts[0]
  {
  }

  /** No piece of the split contains "}{". */
  lemma {:induction false} SplitPiecesClean(s: string)
    ensures forall i :: 0 <= i < |Split(s)| ==> !HasBoundary(Split(s)[i])
    decreases |s|
  {
    if |s| < 2 {
      assert forall i :: !BoundaryAt(s, i);
    } else if BoundaryAt(s, 0) {
      SplitPiecesClean(s[2..]);
      var parts := Split(s);
      assert parts[0] == "" && forall i :: !BoundaryAt("", i);
      assert forall i :: 1 <= i < |parts| ==> parts[i] == Split(s[2..])[i - 1];
    } else {
      var rest := Split(s[1..]);
      SplitPiecesClean(s[1..]);
      SplitJoin(s[1..]);
      JoinStartsWithFirst(rest);
      var first := [s[0]] + rest[0];
      assert !HasBoundary(rest[0]);
      forall i | 0 <= i < |first|
        ensures !BoundaryAt(first, i)
      {
        if i == 0 {
          if |rest[0]| > 0 {
            assert first[1] == rest[0][0] == s[1..][0] == s[1];
          }
        } else {
          assert !BoundaryAt(rest[0], i - 1);
        }
      }
      var parts := Split(s);
      assert parts[0] == first;
      assert forall i :: 1 <= i < |parts| ==> parts[i] == rest[i];
    }
  }

  /** The split is the one and only way to write the body as pieces without "}{" joined by "}{". */
  lemma SplitCharacterization(s: string, parts: seq<string>)
    ensures Split(s) == parts <==>
      |parts| >= 1 && Join(parts) == s && forall i :: 0 <= i < |parts| ==> !HasBoundary(parts[i])
  {
    SplitJoin(s);
    SplitPiecesClean(s);
    if |parts| >= 1 && Join(parts) == s && forall i :: 0 <= i < |parts| ==> !HasBoundary(parts[i]) {
      JoinSplit(parts);
    }
  }

  // ---------------------------------------------------------------------
  // Reassembly: the texts handed to JSON.parse spell out the body.
  // ---------------------------------------------------------------------

  lemma {:induction false} ReassembleTail(parts: seq<string>, i: nat)
    requires 1 <= i < |parts|
    ensures Concat(Reassemble(parts)[i..]) == "{" + Join(parts[i..])
    decreases |parts| - i
  {
    var texts := Reassemble(parts);
    assert texts[i..][0] == texts[i];
    assert texts[i..][1..] == texts[i + 1..];
    assert parts[i..][0] == parts[i];
    if i == |parts| - 1 {
      assert parts[i..] == [parts[i]];
      assert texts[i + 1..] == [];
    } else {
      ReassembleTail(parts, i + 1);
      assert parts[i..][1..] == parts[i + 1..];
    }
  }

  lemma ReassembleConcat(parts: seq<string>)
    requires 2 <= |parts|
    ensures Concat(Reassemble(parts)) == Join(parts)
  {
    var texts := Reassemble(parts);
    var j := Join(parts[1..]);
    ReassembleTail(parts, 1);
    assert Concat(texts) == (parts[0] + "}") + ("{" + j);
    JoinCons(parts[0], parts[1..]);
    assert [parts[0]] + parts[1..] == parts;
    AppendAssoc(parts[0], "}", "{" + j);
    AppendAssoc("}", "{", j);
    assert "}" + "{" == "}{";
  }

  /** Concatenating the texts handed to JSON.parse gives back the body exactly. */
  lemma FragmentsRoundTrip(body: string)
    ensures Concat(Fragments(body)) == body
  {
    var parts := Split(body);
    if |parts| >= 2 {
      ReassembleConcat(parts);
      SplitJoin(body);
    }
  }

  // ---------------------------------------------------------------------
  // What result2JSON returns.
  // ---------------------------------------------------------------------

  /** A body without "}{" becomes exactly one frame: the body parsed as a whole. */
  lemma DemuxSingleDocument(parse: string -> Option<Json>, body: string)
    requires !HasBoundary(body)
    ensures Fragments(body) == [body]
    ensures Demux(parse, body) == if parse(body).Some? then Some([parse(body).value]) else None
  {
    NoBoundarySplit(body);
    var all := ParseAll(parse, [body]);
    if all.Some? {
      assert all.value == [parse(body).value];
    }
  }

  /** On success there is one frame more than boundaries, frame i being piece i parsed. */
  lemma DemuxFrames(parse: string -> Option<Json>, body: string)
    requires Demux(parse, body).Some?
    ensures |Demux(parse, body).value| == Count(body) + 1
    ensures forall i :: 0 <= i < |Fragments(body)| ==>
      Demux(parse, body).value[i] == parse(Fragments(body)[i]).value
  {
    SplitCount(body);
  }

  /** result2JSON throws, returning no partial sequence, exactly when one of the texts does not parse. */
  lemma DemuxFailure(parse: string -> Option<Json>, body: string)
    ensures Demux(parse, body).None? <==>
      exists i :: 0 <= i < |Fragments(body)| && parse(Fragments(body)[i]).None?
  {
    var texts := Fragments(body);
    assert Demux(parse, body) == ParseAll(parse, texts);
    if Demux(parse, body).None? {
      var i :| 0 <= i < |texts| && !parse(texts[i]).Some?;
      assert parse(texts[i]).None?;
    }
  }

  /** The body "{...}" of one object. */
  function Wrap(inner: seq<string>): (docs: seq<string>)
    ensures |docs| == |inner|
    ensures forall i :: 0 <= i < |inner| ==> docs[i] == "{" + inner[i] + "}"
  {
    seq(|inner|, i requires 0 <= i < |inner| => "{" + inner[i] + "}")
  }

  lemma {:induction false} ConcatWrap(inner: seq<string>)
    requires |inner| >= 1
    ensures Concat(Wrap(inner)) == "{" + Join(inner) + "}"
    decreases |inner|
  {
    var docs := Wrap(inner);
    assert docs[1..] == Wrap(inner[1..]);
    if |inner| == 1 {
      assert docs[1..] == [];
    } else {
      ConcatWrap(inner[1..]);
    }
  }

  lemma {:induction false} JoinCloseLast(parts: seq<string>)
    requires |parts| >= 1
    ensures Join(parts[|parts| - 1 := parts[|parts| - 1] + "}"]) == Join(parts) + "}"
    decreases |parts|
  {
    var closed := parts[|parts| - 1 := parts[|parts| - 1] + "}"];
    if |parts| > 1 {
      JoinCloseLast(parts[1..]);
      assert closed[1..] == parts[1..][|parts| - 2 := parts[|parts| - 1] + "}"];
    }
  }

  lemma OpenKeepsNoBoundary(x: string)
    requires !HasBoundary(x)
    ensures !HasBoundary("{" + x)
  {
    var y := "{" + x;
    forall i | 0 <= i < |y|
      ensures !BoundaryAt(y, i)
    {
      if i >= 1 {
        assert !BoundaryAt(x, i - 1);
      }
    }
  }

  lemma CloseKeepsNoBoundary(x: string)
    requires !HasBoundary(x)
    ensures !HasBoundary(x + "}")
  {
    var y := x + "}";
    forall i | 0 <= i < |y|
      ensures !BoundaryAt(y, i)
    {
      if i + 1 < |x| {
        assert !BoundaryAt(x, i);
      }
    }
  }

  /**
   * Objects written back to back, none of which holds "}{" inside, are cut
   * back into exactly those objects: result2JSON parses each one on its own,
   * in order.
   */
  lemma ConcatenatedObjects(parse: string -> Option<Json>, inner: seq<string>)
    requires |inner| >= 1
    requires forall i :: 0 <= i < |inner| ==> !HasBoundary(inner[i])
    ensures Fragments(Concat(Wrap(inner))) == Wrap(inner)
    ensures Demux(parse, Concat(Wrap(inner))) == ParseAll(parse, Wrap(inner))
  {
    if |inner| == 1 {
      WrappedSingle(inner);
    } else {
      WrappedMany(inner);
    }
  }

  lemma WrappedSingle(inner: seq<string>)
    requires |inner| == 1 && !HasBoundary(inner[0])
    ensures Fragments(Concat(Wrap(inner))) == Wrap(inner)
  {
    var body := Concat(Wrap(inner));
    ConcatWrap(inner);
    OpenKeepsNoBoundary(inner[0]);
    CloseKeepsNoBoundary("{" + inner[0]);
    assert body == "{" + inner[0] + "}";
    NoBoundarySplit(body);
  }

  lemma WrappedMany(inner: seq<string>)
    requires |inner| >= 2
    requires forall i :: 0 <= i < |inner| ==> !HasBoundary(inner[i])
    ensures Fragments(Concat(Wrap(inner))) == Wrap(inner)
  {
    var body := Concat(Wrap(inner));
    var parts := WrappedPieces(inner);
    JoinSplit(parts);
    assert Split(body) == parts;
    Rewrap(inner, parts);
  }

  /** Restoring the braces of the pieces gives back the objects. */
  lemma Rewrap(inner: seq<string>, parts: seq<string>)
    requires |inner| >= 2 && |parts| == |inner|
    requires parts[0] == "{" + inner[0] && parts[|parts| - 1] == inner[|inner| - 1] + "}"
    requires forall i :: 0 < i < |parts| - 1 ==> parts[i] == inner[i]
    ensures Reassemble(parts) == Wrap(inner)
  {
    var texts, docs := Reassemble(parts), Wrap(inner);
    forall i | 0 <= i < |inner|
      ensures texts[i] == docs[i]
    {
      RewrapOne(inner, parts, i);
    }
  }

  lemma RewrapOne(inner: seq<string>, parts: seq<string>, i: nat)
    requires |inner| >= 2 && |parts| == |inner| && i < |inner|
    requires parts[0] == "{" + inner[0] && parts[|parts| - 1] == inner[|inner| - 1] + "}"
    requires 0 < i < |parts| - 1 ==> parts[i] == inner[i]
    ensures Fragment(parts, i) == "{" + inner[i] + "}"
  {
    if i == |parts| - 1 {
      assert "{" + (inner[i] + "}") == "{" + inner[i] + "}";
    }
  }

  /** The pieces "}{" cuts the concatenated objects into: the outer braces stay on the ends. */
  lemma WrappedPieces(inner: seq<string>) returns (parts: seq<string>)
    requires |inner| >= 2
    requires forall i :: 0 <= i < |inner| ==> !HasBoundary(inner[i])
    ensures |parts| == |inner|
    ensures Join(parts) == Concat(Wrap(inner))
    ensures forall i :: 0 <= i < |parts| ==> !HasBoundary(parts[i])
    ensures parts[0] == "{" + inner[0] && parts[|parts| - 1] == inner[|inner| - 1] + "}"
    ensures forall i :: 0 < i < |parts| - 1 ==> parts[i] == inner[i]
  {
    ConcatWrap(inner);
    var n := |inner|;
    var closed := inner[n - 1 := inner[n - 1] + "}"];
    parts := closed[0 := "{" + closed[0]];
    JoinCloseLast(inner);
    assert Join(parts) == "{" + Join(closed) by {
      assert parts[1..] == closed[1..];
    }
    forall i | 0 <= i < n
      ensures !HasBoundary(parts[i])
    {
      if i == 0 {
        OpenKeepsNoBoundary(inner[0]);
      } else if i == n - 1 {
        CloseKeepsNoBoundary(inner[i]);
      }
    }
  }

  /**
   * The known limitation of the framing: the single object {"a":"}{"}, whose
   * string value holds "}{", is cut in two, and neither text handed to
   * JSON.parse is that object.
   */
  lemma BoundaryInsideString(p: string, t: string)
    requires p == "{\"a\":\"" && t == "\"}"
    ensures p + "}{" + t == "{\"a\":\"}{\"}"
    ensures HasBoundary(p + "}{" + t)
    ensures Split(p + "}{" + t) == [p, t]
    ensures Fragments(p + "}{" + t) == ["{\"a\":\"}", "{\"}"]
  {
    assert BoundaryAt(p + "}{" + t, |p|);
    assert !HasBoundary(p) by {
      assert '}' !in p;
      forall i | 0 <= i < |p|
        ensures !BoundaryAt(p, i)
      {
        assert p[i] in p;
      }
    }
    assert !HasBoundary(t) by {
      assert '{' !in t;
      forall i | 0 <= i < |t|
        ensures !BoundaryAt(t, i)
      {
        if i + 1 < |t| {
          assert t[i + 1] in t;
        }
      }
    }
    SplitAfterPiece(p, t);
    NoBoundarySplit(t);
    assert [p] + [t] == [p, t];
    var texts := Fragments(p + "}{" + t);
    assert texts[0] == p + "}" == "{\"a\":\"}";
    assert texts[1] == "{" + t == "{\"}";
  }
}
