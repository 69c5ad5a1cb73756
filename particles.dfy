/**
 * The particle record of survivor/base_game.py and its canonical text form
 * (`Particle.to_str`, `BaseGame.encode`), plus the two kind queries.
 *
 * Attribute values are either integers or strings; an attribute mapping is
 * the ordered list of its (key, value) entries, as Python's dict keeps
 * insertion order.
 */
module Particles {
  import opened Wrappers
  import opened Text
  import opened Lists

  /**
   * An attribute value: a whole number (a Python int, or a float holding a
   * whole number when `isFloat`), or a string.
   */
  datatype Value = Num(n: int, isFloat: bool) | Str(s: string)

  type Attrs = seq<(string, Value)>

  datatype Particle = Particle(kind: string, x: Value, y: Value, attributes: Attrs)

  /** f-string formatting of a value. */
  function ValueText(v: Value): string
  {
    match v
    case Num(n, isFloat) => if isFloat then FloatText(n) else IntText(n)
    case Str(s) => s
  }

  /** to_str's own precondition: a non-empty mapping must carry an `id`. */
  predicate Printable(p: Particle)
  {
    |p.attributes| == 0 || Lookup(p.attributes, "id").Some?
  }

  /** The fields to_str writes before the other attributes. */
  function Header(p: Particle): seq<(string, string)>
    requires Printable(p)
  {
    var id := if |p.attributes| == 0 then "0" else ValueText(Lookup(p.attributes, "id").value);
    [("id", id), ("kind", p.kind), ("x", ValueText(p.x)), ("y", ValueText(p.y))]
  }

  /** The attributes other than `id`, in order, as key and value text. */
  function Others(a: Attrs): (r: seq<(string, string)>)
    ensures |r| <= |a|
  {
    if a == [] then []
    else if a[0].0 == "id" then Others(a[1..])
    else [(a[0].0, ValueText(a[0].1))] + Others(a[1..])
  }

  /** `', '.join(f'{k}:{v}' ...)`. */
  function Join(ps: seq<(string, string)>): string
  {
    if ps == [] then ""
    else if |ps| == 1 then ps[0].0 + ":" + ps[0].1
    else ps[0].0 + ":" + ps[0].1 + ", " + Join(ps[1..])
  }

  /**
   * What to_str writes between the braces: the header, then, when there are
   * attributes at all, a separator and the other attributes (so a particle
   * whose only attribute is its id ends in a bare separator).
   */
  function Body(p: Particle): string
    requires Printable(p)
  {
    if |p.attributes| > 0 then Join(Header(p)) + ", " + Join(Others(p.attributes))
    else Join(Header(p))
  }

  /** Particle.to_str: one line `{id:I, kind:K, x:X, y:Y, <others>}`. */
  function ToStr(p: Particle): string
    requires Printable(p)
  {
    "{" + Body(p) + "}\n"
  }

  /** The four header fields as to_str joins them. */
  lemma {:induction false} JoinHeader(i: string, k: string, x: string, y: string)
    ensures Join([("id", i), ("kind", k), ("x", x), ("y", y)])
      == "id:" + i + ", " + ("kind:" + k + ", " + ("x:" + x + ", " + ("y:" + y)))
  {
    var h3 := [("y", y)];
    var h2 := [("x", x)] + h3;
    var h1 := [("kind", k)] + h2;
    var h0 := [("id", i)] + h1;
    assert h0 == [("id", i), ("kind", k), ("x", x), ("y", y)];
    JoinCons(h0);
    JoinCons(h1);
    JoinCons(h2);
    assert Join(h3) == "y" + ":" + y;
    KeyTexts();
  }

  lemma JoinCons(ps: seq<(string, string)>)
    requires |ps| >= 2
    ensures Join(ps) == ps[0].0 + ":" + ps[0].1 + ", " + Join(ps[1..])
  {
  }

  lemma KeyTexts()
    ensures "id" + ":" == "id:" && "kind" + ":" == "kind:" && "x" + ":" == "x:" && "y" + ":" == "y:"
  {
  }

  /** Without attributes the id is written as 0 and nothing follows `y`. */
  lemma {:induction false} ToStrBare(p: Particle)
    requires |p.attributes| == 0
    ensures ToStr(p) == "{id:0, kind:" + p.kind + ", x:" + ValueText(p.x) + ", y:" + ValueText(p.y) + "}\n"
  {
    var k, x, y := p.kind, ValueText(p.x), ValueText(p.y);
    JoinHeader("0", k, x, y);
    BareText(k, x, y);
  }

  /** With the id as the only attribute, the line ends in a bare `", "` before the closing brace. */
  lemma {:induction false} ToStrIdOnly(p: Particle, v: Value)
    requires p.attributes == [("id", v)]
    ensures ToStr(p) == "{id:" + ValueText(v) + ", kind:" + p.kind + ", x:" + ValueText(p.x) + ", y:" + ValueText(p.y) + ", }\n"
  {
    var i, k, x, y := ValueText(v), p.kind, ValueText(p.x), ValueText(p.y);
    IdOnlyParts(p, v);
    JoinHeader(i, k, x, y);
    IdOnlyText(i, k, x, y);
  }

  lemma BareText(k: string, x: string, y: string)
    ensures "{" + ("id:" + "0" + ", " + ("kind:" + k + ", " + ("x:" + x + ", " + ("y:" + y)))) + "}\n"
      == "{id:0, kind:" + k + ", x:" + x + ", y:" + y + "}\n"
  {
    assert "{" + ("id:" + "0" + ", " + ("kind:" + k + ", " + ("x:" + x + ", " + ("y:" + y)))) + "}\n"
      == ("{" + "id:" + "0" + ", " + "kind:") + k + (", " + "x:") + x + (", " + "y:") + y + "}\n";
    assert "{" + "id:" + "0" + ", " + "kind:" == "{id:0, kind:";
    assert ", " + "x:" == ", x:" && ", " + "y:" == ", y:";
  }

  lemma IdOnlyText(i: string, k: string, x: string, y: string)
    ensures "{" + ("id:" + i + ", " + ("kind:" + k + ", " + ("x:" + x + ", " + ("y:" + y))) + ", ") + "}\n"
      == "{id:" + i + ", kind:" + k + ", x:" + x + ", y:" + y + ", }\n"
  {
    assert "{" + ("id:" + i + ", " + ("kind:" + k + ", " + ("x:" + x + ", " + ("y:" + y))) + ", ") + "}\n"
      == ("{" + "id:") + i + (", " + "kind:") + k + (", " + "x:") + x + (", " + "y:") + y + (", " + "}\n");
    assert "{" + "id:" == "{id:" && ", " + "kind:" == ", kind:";
    assert ", " + "x:" == ", x:" && ", " + "y:" == ", y:" && ", " + "}\n" == ", }\n";
  }

  lemma {:induction false} IdOnlyParts(p: Particle, v: Value)
    requires p.attributes == [("id", v)]
    ensures Body(p) == Join(Header(p)) + ", "
    ensures Header(p) == [("id", ValueText(v)), ("kind", p.kind), ("x", ValueText(p.x)), ("y", ValueText(p.y))]
  {
    assert Lookup(p.attributes, "id") == Some(v);
    assert p.attributes[1..] == [];
    assert Others(p.attributes) == [];
  }

  predicate AllPrintable(ps: seq<Particle>)
  {
    forall i :: 0 <= i < |ps| ==> Printable(ps[i])
  }

  /** encode: the lines of all particles, in list order. */
  function EncodeAll(ps: seq<Particle>): string
    requires AllPrintable(ps)
  {
    if ps == [] then "" else ToStr(ps[0]) + EncodeAll(ps[1..])
  }

  /** to_str extended to every particle; only printable ones are ever passed. */
  function Line(p: Particle): string
  {
    if Printable(p) then ToStr(p) else ""
  }

  /** The lines `encode` concatenates, one per particle. */
  function Lines(ps: seq<Particle>): (ls: seq<string>)
    ensures |ls| == |ps|
  {
    Map(Line, ps)
  }

  function Concat(ls: seq<string>): string
  {
    if ls == [] then "" else ls[0] + Concat(ls[1..])
  }

  /** encode is the concatenation of to_str over the particles in list order. */
  lemma {:induction false} EncodeIsConcatOfLines(ps: seq<Particle>)
    requires AllPrintable(ps)
    ensures EncodeAll(ps) == Concat(Lines(ps))
    decreases |ps|
  {
    if ps != [] {
      EncodeIsConcatOfLines(ps[1..]);
    }
  }

  lemma PrintableAppend(a: seq<Particle>, b: seq<Particle>)
    requires AllPrintable(a) && AllPrintable(b)
    ensures AllPrintable(a + b)
  {
    forall i | 0 <= i < |a + b| ensures Printable((a + b)[i]) {
      if i < |a| { assert (a + b)[i] == a[i]; } else { assert (a + b)[i] == b[i - |a|]; }
    }
  }

  /** Encoding a list split in two is encoding each part. */
  lemma {:induction false} EncodeAppend(a: seq<Particle>, b: seq<Particle>)
    requires AllPrintable(a) && AllPrintable(b)
    ensures AllPrintable(a + b)
    ensures EncodeAll(a + b) == EncodeAll(a) + EncodeAll(b)
    decreases |a|
  {
    PrintableAppend(a, b);
    if a == [] {
      assert a + b == b;
    } else {
      assert (a + b)[1..] == a[1..] + b;
      assert AllPrintable(a[1..]) by {
        forall i | 0 <= i < |a[1..]| ensures Printable(a[1..][i]) {
          assert a[1..][i] == a[i + 1];
        }
      }
      EncodeAppend(a[1..], b);
    }
  }

  /** The lines of two lists holding the same particles are the same lines, reordered. */
  lemma LinesPermutation(a: seq<Particle>, b: seq<Particle>)
    requires multiset(a) == multiset(b)
    ensures multiset(Lines(a)) == multiset(Lines(b))
  {
    MapPermutation(Line, a, b);
  }

  /** get_particle: the first particle of the kind, or None. */
  function FirstOfKind(ps: seq<Particle>, kind: string): (r: Option<Particle>)
    ensures r.Some? ==> r.value in ps && r.value.kind == kind
    ensures r.Some? ==> exists i :: 0 <= i < |ps| && ps[i] == r.value && NoneOfKindBefore(ps, kind, i)
    ensures r.None? <==> forall i :: 0 <= i < |ps| ==> ps[i].kind != kind
  {
    if ps == [] then None
    else if ps[0].kind == kind then
      assert NoneOfKindBefore(ps, kind, 0);
      Some(ps[0])
    else
      var r := FirstOfKind(ps[1..], kind);
      assert r.None? ==> forall i :: 0 <= i < |ps| ==> ps[i].kind != kind by {
        if r.None? {
          forall i | 0 <= i < |ps| ensures ps[i].kind != kind {
            if i > 0 { assert ps[i] == ps[1..][i - 1]; }
          }
        }
      }
      assert r.Some? ==> exists i :: 0 <= i < |ps| && ps[i] == r.value && NoneOfKindBefore(ps, kind, i) by {
        if r.Some? {
          var k :| 0 <= k < |ps[1..]| && ps[1..][k] == r.value && NoneOfKindBefore(ps[1..], kind, k);
          forall j | 0 <= j < k + 1 ensures ps[j].kind != kind {
            if j > 0 { assert ps[j] == ps[1..][j - 1]; }
          }
          assert ps[k + 1] == r.value && NoneOfKindBefore(ps, kind, k + 1);
        }
      }
      r
  }

  /** No particle before position `i` is of the kind. */
  predicate NoneOfKindBefore(ps: seq<Particle>, kind: string, i: nat)
    requires i <= |ps|
  {
    forall j :: 0 <= j < i ==> ps[j].kind != kind
  }

  /** get_particles: every particle of the kind, in list order, repeats included. */
  function AllOfKind(ps: seq<Particle>, kind: string): (r: seq<Particle>)
    ensures |r| <= |ps|
    ensures forall i :: 0 <= i < |r| ==> r[i].kind == kind
  {
    if ps == [] then []
    else
      var rest := AllOfKind(ps[1..], kind);
      if ps[0].kind == kind then [ps[0]] + rest else rest
  }

  /** A particle is in get_particles' list exactly when it is in the list and of the kind. */
  lemma {:induction false} AllOfKindMembers(ps: seq<Particle>, kind: string, p: Particle)
    ensures p in AllOfKind(ps, kind) <==> p in ps && p.kind == kind
    decreases |ps|
  {
    if ps != [] {
      AllOfKindMembers(ps[1..], kind, p);
      assert ps == [ps[0]] + ps[1..];
    }
  }

  /** get_particles keeps list order: it distributes over concatenation. */
  lemma {:induction false} AllOfKindAppend(a: seq<Particle>, b: seq<Particle>, kind: string)
    ensures AllOfKind(a + b, kind) == AllOfKind(a, kind) + AllOfKind(b, kind)
    decreases |a|
  {
    if a == [] {
      assert a + b == b;
    } else {
      assert (a + b)[0] == a[0] && (a + b)[1..] == a[1..] + b;
      AllOfKindAppend(a[1..], b, kind);
    }
  }

  /** One step of get_particles at the head of the list. */
  lemma AllOfKindCons(p: Particle, t: seq<Particle>, kind: string)
    ensures AllOfKind([p] + t, kind) == (if p.kind == kind then [p] else []) + AllOfKind(t, kind)
  {
    assert ([p] + t)[0] == p && ([p] + t)[1..] == t;
  }

  /** get_particles keeps every particle of the kind as often as the list holds it, and no other. */
  lemma {:induction false} AllOfKindCounts(ps: seq<Particle>, kind: string)
    ensures forall p :: multiset(AllOfKind(ps, kind))[p] == if p.kind == kind then multiset(ps)[p] else 0
    decreases |ps|
  {
    if ps != [] {
      AllOfKindCounts(ps[1..], kind);
      assert ps == [ps[0]] + ps[1..];
    }
  }

  /** get_particles of one particle: the particle when it is of the kind, else nothing. */
  lemma AllOfKindSingle(p: Particle, kind: string)
    ensures AllOfKind([p], kind) == if p.kind == kind then [p] else []
  {
    assert [p][1..] == [];
  }

  /** get_particle is the head of get_particles. */
  lemma {:induction false} FirstOfKindIsHead(ps: seq<Particle>, kind: string)
    ensures FirstOfKind(ps, kind) == if AllOfKind(ps, kind) == [] then None else Some(AllOfKind(ps, kind)[0])
    decreases |ps|
  {
    if ps != [] && ps[0].kind != kind {
      FirstOfKindIsHead(ps[1..], kind);
    }
  }
}
