/**
 * What survives `decode(encode())` in survivor/base_game.py: for particles
 * whose keys, kinds and string values are plain ASCII tokens that float()
 * rejects, and whose numbers a float holds exactly, decoding the encoded
 * text rebuilds every particle with its numbers turned into floats and its
 * id moved to the front, sorted by id, and a second round changes nothing.
 */
module RoundTrip {
  import opened Wrappers
  import opened Text
  import opened Lists
  import opened Particles
  import opened Decoding

  /** 2^53: every whole number up to it in size is a float exactly, and its repr has no exponent. */
  const MaxExactFloat := 9007199254740992

  /**
   * A value whose text decode reads back as Python does: a number that a
   * float holds exactly, or a plain ASCII token that float() rejects.
   */
  predicate CleanValue(v: Value)
  {
    match v
    case Num(n, _) => -MaxExactFloat <= n <= MaxExactFloat
    case Str(s) => IsCleanToken(s) && IsAscii(s) && !MayReadAsFloat(s)
  }

  predicate CleanEntry(e: (string, Value))
  {
    IsWord(e.0) && !IsPositionKey(e.0) && CleanValue(e.1)
  }

  /**
   * A particle that the text form carries faithfully: a position a float
   * holds exactly, a plain ASCII kind, an id whenever there are attributes,
   * and distinct word keys other than kind, x and y with clean values.
   */
  predicate Encodable(p: Particle)
  {
    && IsCleanToken(p.kind) && IsAscii(p.kind)
    && p.x.Num? && p.y.Num? && CleanValue(p.x) && CleanValue(p.y)
    && Printable(p)
    && UniqueKeys(p.attributes)
    && forall i :: 0 <= i < |p.attributes| ==> CleanEntry(p.attributes[i])
  }

  predicate AllEncodable(ps: seq<Particle>)
  {
    AllPrintable(ps) && forall i :: 0 <= i < |ps| ==> Encodable(ps[i])
  }

  /** float() of a value decode reads as a number. */
  function Floated(v: Value): (r: Value)
    ensures r.Num? == v.Num?
  {
    match v
    case Num(n, _) => Num(n, true)
    case Str(s) => Str(s)
  }

  /** The entries other than the id, their numbers turned into floats. */
  function FloatedRest(a: Attrs): (r: Attrs)
    ensures |r| <= |a|
  {
    if a == [] then []
    else if a[0].0 == "id" then FloatedRest(a[1..])
    else [(a[0].0, Floated(a[0].1))] + FloatedRest(a[1..])
  }

  /** The particle decode rebuilds from to_str's line. */
  function Normal(p: Particle): Particle
  {
    var id := match Lookup(p.attributes, "id") case Some(v) => Floated(v) case None => Num(0, true);
    Particle(p.kind, Floated(p.x), Floated(p.y), [("id", id)] + FloatedRest(p.attributes))
  }

  // ---------------------------------------------------------------------
  // Values
  // ---------------------------------------------------------------------

  lemma ValueTextParses(v: Value)
    requires CleanValue(v)
    ensures IsCleanToken(ValueText(v))
    ensures ParseValue(ValueText(v)) == Floated(v)
  {
    if v.Num? {
      IntTextRoundTrip(v.n);
    } else {
      NoDigitNoNumber(v.s);
    }
  }

  // ---------------------------------------------------------------------
  // The pair scan over a joined list of pairs
  // ---------------------------------------------------------------------

  lemma {:induction false} WordRunOf(k: string, y: string)
    requires forall i :: 0 <= i < |k| ==> IsWordChar(k[i])
    requires y == [] || !IsWordChar(y[0])
    ensures WordRun(k + y) == |k|
    decreases |k|
  {
    if k != [] {
      assert (k + y)[1..] == k[1..] + y;
      WordRunOf(k[1..], y);
    } else {
      assert k + y == y;
    }
  }

  lemma {:induction false} ValueRunOf(v: string, y: string)
    requires forall i :: 0 <= i < |v| ==> IsValueChar(v[i])
    requires y == [] || !IsValueChar(y[0])
    ensures ValueRun(v + y) == |v|
    decreases |v|
  {
    if v != [] {
      assert (v + y)[1..] == v[1..] + y;
      ValueRunOf(v[1..], y);
    } else {
      assert v + y == y;
    }
  }

  /** A `key:value` followed by a separator or the end is one match. */
  lemma PairsHead(k: string, v: string, x: string)
    requires IsWord(k) && IsValueToken(v)
    requires x == [] || x[0] == ','
    ensures Pairs(k + ":" + v + x) == [(k, v)] + Pairs(x)
  {
    var s := k + ":" + v + x;
    var rest := v + x;
    assert 0 < |k| < |s| && s[|k|] == ':' && s[..|k|] == k && s[|k| + 1..] == rest by {
      assert s == k + (":" + rest);
    }
    assert WordRun(s) == |k| by {
      assert s == k + (":" + rest);
      WordRunOf(k, ":" + rest);
    }
    assert ValueRun(rest) == |v| > 0 by {
      ValueRunOf(v, x);
    }
    PairsMatch(s, |k|, |v|);
    assert rest[..|v|] == v && rest[|v|..] == x;
  }

  /** One step of the scan at a position where a match starts. */
  lemma PairsMatch(s: string, w: nat, v: nat)
    requires 0 < w < |s| && WordRun(s) == w && s[w] == ':' && ValueRun(s[w + 1..]) == v > 0
    ensures Pairs(s) == [(s[..w], s[w + 1..][..v])] + Pairs(s[w + 1..][v..])
  {
  }

  /** The separator `, ` holds no match. */
  lemma PairsSkip(y: string)
    ensures Pairs(", " + y) == Pairs(y)
  {
    var s := ", " + y;
    assert s[1..] == " " + y;
    assert s[1..][1..] == y;
  }

  predicate PlainPairs(ps: seq<(string, string)>)
  {
    forall i :: 0 <= i < |ps| ==> IsWord(ps[i].0) && IsCleanToken(ps[i].1)
  }

  lemma CleanIsValueToken(t: string)
    requires IsCleanToken(t)
    ensures IsValueToken(t)
  {
  }

  /** Scanning the join of plain pairs gives back the pairs. */
  lemma {:induction false} PairsJoin(ps: seq<(string, string)>, tail: string)
    requires PlainPairs(ps)
    requires tail == [] || tail[0] == ','
    ensures Pairs(Join(ps) + tail) == ps + Pairs(tail)
    decreases |ps|
  {
    if ps == [] {
      assert Join(ps) + tail == tail;
    } else {
      var k, v := ps[0].0, ps[0].1;
      assert IsWord(k) && IsValueToken(v) by {
        CleanIsValueToken(ps[0].1);
      }
      if |ps| == 1 {
        PairsHead(k, v, tail);
        assert ps == [(k, v)];
      } else {
        var more := Join(ps[1..]) + tail;
        calc {
          Pairs(Join(ps) + tail);
          == { JoinMore(ps, tail); }
          Pairs(k + ":" + v + (", " + more));
          == { PairsHead(k, v, ", " + more); }
          [(k, v)] + Pairs(", " + more);
          == { PairsSkip(more); }
          [(k, v)] + Pairs(more);
          == {
            PlainTail(ps);
            PairsJoin(ps[1..], tail);
          }
          [(k, v)] + (ps[1..] + Pairs(tail));
          == { ConsAssoc(ps, Pairs(tail)); }
          ps + Pairs(tail);
        }
      }
    }
  }

  /** Join's case of two or more pairs, with what follows. */
  lemma JoinMore(ps: seq<(string, string)>, tail: string)
    requires |ps| >= 2
    ensures Join(ps) + tail == ps[0].0 + ":" + ps[0].1 + (", " + (Join(ps[1..]) + tail))
  {
    var a, b := ps[0].0 + ":" + ps[0].1, Join(ps[1..]);
    assert Join(ps) == a + ", " + b;
    ConcatAssoc(a, ", ", b);
    ConcatAssoc(a, ", " + b, tail);
    ConcatAssoc(", ", b, tail);
  }

  lemma PlainTail(ps: seq<(string, string)>)
    requires PlainPairs(ps) && ps != []
    ensures PlainPairs(ps[1..])
  {
    assert forall i :: 0 <= i < |ps[1..]| ==> ps[1..][i] == ps[i + 1];
  }

  lemma ConsAssoc<T>(s: seq<T>, t: seq<T>)
    requires s != []
    ensures [s[0]] + (s[1..] + t) == s + t
  {
    HeadTail(s);
    ConcatAssoc([s[0]], s[1..], t);
  }

  // ---------------------------------------------------------------------
  // One line
  // ---------------------------------------------------------------------

  /** The pairs to_str writes: the header, then the other attributes. */
  function LinePairs(p: Particle): seq<(string, string)>
    requires Printable(p)
  {
    Header(p) + Others(p.attributes)
  }

  lemma {:induction false} OthersPlain(a: Attrs)
    requires forall i :: 0 <= i < |a| ==> CleanEntry(a[i])
    ensures PlainPairs(Others(a))
    ensures forall i :: 0 <= i < |Others(a)| ==> !IsPositionKey(Others(a)[i].0) && Others(a)[i].0 != "id"
    decreases |a|
  {
    if a != [] {
      assert forall i :: 0 <= i < |a[1..]| ==> a[1..][i] == a[i + 1];
      OthersPlain(a[1..]);
      if a[0].0 != "id" {
        ValueTextParses(a[0].1);
      }
    }
  }

  lemma {:induction false} OthersKeys(a: Attrs, k: string)
    requires HasKey(Others(a), k)
    ensures HasKey(a, k)
    decreases |a|
  {
    if a != [] {
      var o := Others(a[1..]);
      if a[0].0 == "id" || Others(a)[0].0 != k {
        assert HasKey(o, k) by {
          var i :| 0 <= i < |Others(a)| && Others(a)[i].0 == k;
          if a[0].0 != "id" {
            assert Others(a)[i] == o[i - 1];
          }
        }
        OthersKeys(a[1..], k);
        var j :| 0 <= j < |a[1..]| && a[1..][j].0 == k;
        assert a[j + 1].0 == k;
      } else {
        assert a[0].0 == k;
      }
    }
  }

  lemma {:induction false} OthersUnique(a: Attrs)
    requires UniqueKeys(a)
    ensures UniqueKeys(Others(a))
    decreases |a|
  {
    if a != [] {
      assert UniqueKeys(a[1..]) by {
        forall i, j | 0 <= i < j < |a[1..]| ensures a[1..][i].0 != a[1..][j].0 {
          assert a[1..][i] == a[i + 1] && a[1..][j] == a[j + 1];
        }
      }
      OthersUnique(a[1..]);
      var o := Others(a[1..]);
      if a[0].0 != "id" {
        assert !HasKey(a[1..], a[0].0) by {
          forall m | 0 <= m < |a[1..]| ensures a[1..][m].0 != a[0].0 {
            assert a[1..][m] == a[m + 1];
          }
        }
        forall j | 0 <= j < |o| ensures o[j].0 != a[0].0 {
          assert HasKey(o, o[j].0);
          OthersKeys(a[1..], o[j].0);
        }
        var r := Others(a);
        assert r == [(a[0].0, ValueText(a[0].1))] + o;
        forall i, j | 0 <= i < j < |r| ensures r[i].0 != r[j].0 {
          assert r[j] == o[j - 1];
          if i > 0 {
            assert r[i] == o[i - 1];
          }
        }
      }
    }
  }

  lemma {:induction false} AttributesAppend(a: seq<(string, string)>, b: seq<(string, string)>)
    ensures Attributes(a + b) == Attributes(a) + Attributes(b)
    decreases |a|
  {
    if a == [] {
      assert a + b == b;
    } else {
      assert (a + b)[1..] == a[1..] + b;
      AttributesAppend(a[1..], b);
    }
  }

  /** Reading back the text of the other attributes gives them, as floats where they are numbers. */
  lemma {:induction false} AttributesOfOthers(a: Attrs)
    requires forall i :: 0 <= i < |a| ==> CleanEntry(a[i])
    ensures Attributes(Others(a)) == FloatedRest(a)
    decreases |a|
  {
    if a != [] {
      assert forall i :: 0 <= i < |a[1..]| ==> a[1..][i] == a[i + 1];
      AttributesOfOthers(a[1..]);
      if a[0].0 != "id" {
        ValueTextParses(a[0].1);
        AttributesAppend([(a[0].0, ValueText(a[0].1))], Others(a[1..]));
      }
    }
  }

  lemma HeaderPlain(p: Particle)
    requires Encodable(p)
    ensures PlainPairs(Header(p))
  {
    var h := Header(p);
    HeaderKeysWords();
    ValueTextParses(p.x);
    ValueTextParses(p.y);
    if |p.attributes| > 0 {
      LookupFinds(p.attributes, "id");
      var i :| 0 <= i < |p.attributes| && p.attributes[i] == ("id", Lookup(p.attributes, "id").value);
      ValueTextParses(p.attributes[i].1);
      assert IsCleanToken(h[0].1);
    } else {
      assert IsCleanToken("0");
    }
    assert IsCleanToken(h[1].1) && IsCleanToken(h[2].1) && IsCleanToken(h[3].1);
  }

  /** The header's keys are words. */
  lemma HeaderKeysWords()
    ensures IsWord("id") && IsWord("kind") && IsWord("x") && IsWord("y")
  {
  }

  /** The pair scan over to_str's body finds exactly the pairs it wrote. */
  lemma BodyPairs(p: Particle)
    requires Encodable(p)
    ensures Pairs(Body(p)) == LinePairs(p)
  {
    var h, o := Header(p), Others(p.attributes);
    assert PlainPairs(h) by { HeaderPlain(p); }
    assert PlainPairs(o) by { OthersPlain(p.attributes); }
    if |p.attributes| > 0 {
      assert Pairs(Join(o)) == o by {
        PairsJoin(o, "");
        assert Join(o) + "" == Join(o);
      }
      JoinedPairs(h, o);
    } else {
      calc {
        Pairs(Body(p));
        == { assert Body(p) == Join(h) + ""; }
        Pairs(Join(h) + "");
        == { PairsJoin(h, ""); }
        h;
      }
    }
  }

  /** Two joined runs of plain pairs, with ", " between them, scan as both runs. */
  lemma JoinedPairs(h: seq<(string, string)>, o: seq<(string, string)>)
    requires PlainPairs(h) && PlainPairs(o) && |h| > 0
    requires Pairs(Join(o)) == o
    ensures Pairs(Join(h) + ", " + Join(o)) == h + o
  {
    var jh, jo := Join(h), Join(o);
    assert jh + ", " + jo == jh + (", " + jo);
    calc {
      Pairs(jh + (", " + jo));
      == { PairsJoin(h, ", " + jo); }
      h + Pairs(", " + jo);
      == { PairsSkip(jo); }
      h + o;
    }
  }

  lemma LinePairsUnique(p: Particle)
    requires Encodable(p)
    ensures UniqueKeys(LinePairs(p))
  {
    OthersPlain(p.attributes);
    OthersUnique(p.attributes);
    var h, o := Header(p), Others(p.attributes);
    var l := h + o;
    forall i, j | 0 <= i < j < |l| ensures l[i].0 != l[j].0 {
      if j >= 4 {
        assert l[j] == o[j - 4];
        if i >= 4 {
          assert l[i] == o[i - 4];
        }
      }
    }
  }

  /** Of the header only the id is an attribute. */
  lemma HeaderAttributes(p: Particle)
    requires Printable(p)
    ensures Attributes(Header(p)) == [("id", ParseValue(Header(p)[0].1))]
  {
    var h := Header(p);
    assert IsPositionKey(h[1].0) && IsPositionKey(h[2].0) && IsPositionKey(h[3].0);
    assert h[1..][1..][1..][1..] == [];
    assert Attributes(h[1..][1..][1..]) == [];
    assert Attributes(h[1..][1..]) == [];
    assert Attributes(h[1..]) == [];
  }

  /** Reading to_str's body back gives the particle with floats for its numbers and its id first. */
  lemma ParseBlockOfBody(p: Particle)
    requires Encodable(p)
    ensures ParseBlock(Body(p)) == Ok(Normal(p))
  {
    var l := LinePairs(p);
    var h, o := Header(p), Others(p.attributes);
    assert DictFromPairs(Pairs(Body(p))) == l by {
      BodyPairs(p);
      LinePairsUnique(p);
      DictFromDistinctPairs(l);
    }
    assert l[0].0 == "id" && l[1] == ("kind", p.kind) && l[2] == ("x", ValueText(p.x)) && l[3] == ("y", ValueText(p.y));
    assert Lookup(l, "kind") == Some(p.kind) by {
      LookupFirst(l, 1, "kind");
    }
    assert ParseField(l, "x") == Ok(p.x.n) by {
      LookupFirst(l, 2, "x");
      IntTextRoundTrip(p.x.n);
    }
    assert ParseField(l, "y") == Ok(p.y.n) by {
      LookupFirst(l, 3, "y");
      IntTextRoundTrip(p.y.n);
    }
    var id := match Lookup(p.attributes, "id") case Some(v) => Floated(v) case None => Num(0, true);
    assert ParseValue(h[0].1) == id by {
      if |p.attributes| > 0 {
        LookupFinds(p.attributes, "id");
        var i :| 0 <= i < |p.attributes| && p.attributes[i] == ("id", Lookup(p.attributes, "id").value);
        ValueTextParses(p.attributes[i].1);
      } else {
        IntTextRoundTrip(0);
        assert IntText(0) == "0";
      }
    }
    assert Attributes(l) == [("id", id)] + FloatedRest(p.attributes) by {
      AttributesAppend(h, o);
      AttributesOfOthers(p.attributes);
      HeaderAttributes(p);
    }
  }

  // ---------------------------------------------------------------------
  // Lines and blocks
  // ---------------------------------------------------------------------

  lemma NoBraceOrNewlineAppend(a: string, b: string)
    requires NoBraceOrNewline(a) && NoBraceOrNewline(b)
    ensures NoBraceOrNewline(a + b)
  {
    forall i | 0 <= i < |a + b| ensures (a + b)[i] != '}' && (a + b)[i] != '\n' {
      if i >= |a| {
        assert (a + b)[i] == b[i - |a|];
      }
    }
  }

  lemma {:induction false} JoinClean(ps: seq<(string, string)>)
    requires PlainPairs(ps)
    ensures NoBraceOrNewline(Join(ps))
    decreases |ps|
  {
    if ps != [] {
      var k, v := ps[0].0, ps[0].1;
      assert NoBraceOrNewline(k) && NoBraceOrNewline(v);
      NoBraceOrNewlineAppend(k, ":");
      NoBraceOrNewlineAppend(k + ":", v);
      if |ps| > 1 {
        assert PlainPairs(ps[1..]) by {
          assert forall i :: 0 <= i < |ps[1..]| ==> ps[1..][i] == ps[i + 1];
        }
        JoinClean(ps[1..]);
        NoBraceOrNewlineAppend(k + ":" + v, ", ");
        NoBraceOrNewlineAppend(k + ":" + v + ", ", Join(ps[1..]));
      }
    }
  }

  /** to_str's body holds no `}` and no newline, so the brace scan takes it whole. */
  lemma BodyClean(p: Particle)
    requires Encodable(p)
    ensures NoBraceOrNewline(Body(p))
  {
    HeaderPlain(p);
    OthersPlain(p.attributes);
    JoinClean(Header(p));
    JoinClean(Others(p.attributes));
    NoBraceOrNewlineAppend(Join(Header(p)), ", ");
    NoBraceOrNewlineAppend(Join(Header(p)) + ", ", Join(Others(p.attributes)));
  }

  lemma {:induction false} CloseIndexOf(b: string, x: string)
    requires NoBraceOrNewline(b)
    ensures CloseIndex(b + "}" + x) == Some(|b|)
    decreases |b|
  {
    if b != [] {
      assert (b + "}" + x)[1..] == b[1..] + "}" + x;
      CloseIndexOf(b[1..], x);
    }
  }

  /** One line of encode's text yields its body as one block. */
  lemma BlocksLine(b: string, rest: string)
    requires NoBraceOrNewline(b)
    ensures Blocks("{" + b + "}\n" + rest) == [b] + Blocks(rest)
  {
    var s := "{" + b + "}\n" + rest;
    var t := s[1..];
    assert t == b + "}" + ("\n" + rest);
    CloseIndexOf(b, "\n" + rest);
    assert t[..|b|] == b;
    assert t[|b| + 1..] == "\n" + rest;
    assert ("\n" + rest)[1..] == rest;
  }

  /** decode's view of a list of particles. */
  function NormalAll(ps: seq<Particle>): (r: seq<Particle>)
    ensures |r| == |ps|
    ensures forall i :: 0 <= i < |ps| ==> r[i] == Normal(ps[i])
    ensures AllHaveIds(r) && AllPrintable(r)
  {
    if ps == [] then []
    else
      var r := [Normal(ps[0])] + NormalAll(ps[1..]);
      assert forall i :: 0 < i < |ps| ==> ps[1..][i - 1] == ps[i];
      r
  }

  /** The block loop over encode's text rebuilds every particle, in order, without error. */
  lemma {:induction false} ParseEncoded(ps: seq<Particle>)
    requires AllEncodable(ps)
    ensures ParseBlocks(Blocks(EncodeAll(ps))) == (NormalAll(ps), None)
    decreases |ps|
  {
    if ps != [] {
      var p, tail := ps[0], ps[1..];
      assert forall i :: 0 <= i < |tail| ==> tail[i] == ps[i + 1];
      ParseEncoded(tail);
      var bs := Blocks(EncodeAll(tail));
      assert Blocks(EncodeAll(ps)) == [Body(p)] + bs by {
        BodyClean(p);
        BlocksLine(Body(p), EncodeAll(tail));
      }
      ParseBlockOfBody(p);
      assert ([Body(p)] + bs)[1..] == bs;
    }
  }

  /**
   * decode(encode()) round trip: decode rebuilds decode's view of every
   * particle and sorts it by id, returning the encoding of the sorted list;
   * when the ids mix numbers and strings the sort raises and the list keeps
   * the particles in their encoded order.
   */
  lemma DecodeEncode(ps: seq<Particle>)
    requires AllEncodable(ps)
    ensures SameIdType(NormalAll(ps)) ==>
              DecodeSpec(EncodeAll(ps)) == Decoded(SortById(NormalAll(ps)), Ok(EncodeAll(SortById(NormalAll(ps)))))
    ensures !SameIdType(NormalAll(ps)) ==> DecodeSpec(EncodeAll(ps)) == Decoded(NormalAll(ps), Err(UnorderableIds))
  {
    ParseEncoded(ps);
    SortErrorIff(NormalAll(ps));
  }

  /** An encoding of particles already in id order decodes to exactly those particles, in that order. */
  lemma DecodeEncodeSorted(ps: seq<Particle>)
    requires AllEncodable(ps)
    requires SameIdType(NormalAll(ps)) && SortedById(NormalAll(ps))
    ensures DecodeSpec(EncodeAll(ps)) == Decoded(NormalAll(ps), Ok(EncodeAll(NormalAll(ps))))
  {
    DecodeEncode(ps);
    SortByIdOfSorted(NormalAll(ps));
  }

  // ---------------------------------------------------------------------
  // A second round changes nothing
  // ---------------------------------------------------------------------

  lemma {:induction false} FloatedRestKeys(a: Attrs)
    requires forall i :: 0 <= i < |a| ==> CleanEntry(a[i])
    ensures |FloatedRest(a)| == |Others(a)|
    ensures forall i :: 0 <= i < |Others(a)| ==> FloatedRest(a)[i].0 == Others(a)[i].0
    ensures forall i :: 0 <= i < |Others(a)| ==> CleanEntry(FloatedRest(a)[i])
    decreases |a|
  {
    if a != [] {
      assert forall i :: 0 <= i < |a[1..]| ==> a[1..][i] == a[i + 1];
      FloatedRestKeys(a[1..]);
      OthersPlain(a[1..]);
      if a[0].0 != "id" {
        var f, o := FloatedRest(a), Others(a);
        assert CleanEntry(a[0]);
        forall i | 0 < i < |o| ensures f[i].0 == o[i].0 && CleanEntry(f[i]) {
          assert f[i] == FloatedRest(a[1..])[i - 1] && o[i] == Others(a[1..])[i - 1];
        }
      }
    }
  }

  lemma {:induction false} FloatedRestIdempotent(a: Attrs)
    ensures FloatedRest(FloatedRest(a)) == FloatedRest(a)
    decreases |a|
  {
    if a != [] {
      FloatedRestIdempotent(a[1..]);
    }
  }

  /** decode's view of a particle is itself encodable, and is its own view. */
  lemma NormalIsFixpoint(p: Particle)
    requires Encodable(p)
    ensures Encodable(Normal(p))
    ensures Normal(Normal(p)) == Normal(p)
  {
    var a := p.attributes;
    var f, o := FloatedRest(a), Others(a);
    FloatedRestKeys(a);
    OthersPlain(a);
    OthersUnique(a);
    var id := match Lookup(a, "id") case Some(v) => Floated(v) case None => Num(0, true);
    assert CleanValue(id) by {
      if Lookup(a, "id").Some? {
        LookupFinds(a, "id");
        var i :| 0 <= i < |a| && a[i] == ("id", Lookup(a, "id").value);
        assert CleanEntry(a[i]);
      }
    }
    var na := [("id", id)] + f;
    assert UniqueKeys(na) by {
      forall i, j | 0 <= i < j < |na| ensures na[i].0 != na[j].0 {
        assert na[j] == f[j - 1];
        if i > 0 {
          assert na[i] == f[i - 1];
        }
      }
    }
    assert forall i :: 0 <= i < |na| ==> CleanEntry(na[i]) by {
      forall i | 0 < i < |na| ensures CleanEntry(na[i]) {
        assert na[i] == f[i - 1];
      }
    }
    assert Lookup(na, "id") == Some(id);
    FloatedRestIdempotent(a);
  }

  /**
   * decode is idempotent on its own output: decoding the text a successful
   * decode of encoded particles returns gives back the same list and text.
   */
  lemma DecodeOfNormalIsFixpoint(ps: seq<Particle>)
    requires AllEncodable(ps)
    ensures var first := DecodeSpec(EncodeAll(ps));
      first.result.Ok? ==> DecodeSpec(first.result.value) == first
  {
    DecodeEncode(ps);
    var n := NormalAll(ps);
    if SameIdType(n) {
      var sorted := SortById(n);
      SortByIdPermutes(n);
      SortByIdSorted(n);
      forall i | 0 <= i < |ps| ensures Encodable(n[i]) && Normal(n[i]) == n[i] {
        NormalIsFixpoint(ps[i]);
      }
      PermutedFixpoints(n, sorted);
      assert NormalAll(sorted) == sorted;
      DecodeEncodeSorted(sorted);
    }
  }

  /** A reordering of normal, encodable particles with one id type is all of that too. */
  lemma PermutedFixpoints(n: seq<Particle>, s: seq<Particle>)
    requires multiset(s) == multiset(n) && SameIdType(n)
    requires forall k :: 0 <= k < |n| ==> Encodable(n[k]) && Normal(n[k]) == n[k]
    ensures AllEncodable(s) && SameIdType(s)
    ensures forall i :: 0 <= i < |s| ==> Normal(s[i]) == s[i]
  {
    forall i | 0 <= i < |s| ensures exists k :: 0 <= k < |n| && s[i] == n[k] {
      assert s[i] in multiset(n);
      assert s[i] in n;
    }
    IdsMakePrintable(s);
  }
}
