/**
 * The parsing half of `BaseGame.decode` in survivor/base_game.py: the two
 * regular expressions, the dict built from the `key:value` pairs, the
 * number-or-string reading of values, and the sort by `id`.
 *
 * Every number decode reads becomes a float; a float holding a whole
 * number prints back with a trailing `.0`.
 */
module Decoding {
  import opened Wrappers
  import opened Text
  import opened Lists
  import opened Particles

  /** The exceptions decode can raise on a text it is given. */
  datatype DecodeError =
    | MissingField(field: string)   // KeyError on pairs['kind'], pairs['x'] or pairs['y']
    | NotANumber(field: string)     // ValueError from float() on x or y
    | MissingId                     // KeyError from the sort key p.attributes['id']
    | UnorderableIds                // TypeError from comparing a number id with a string id

  // ---------------------------------------------------------------------
  // re.findall(r'\{(.*?)\}', s)
  // ---------------------------------------------------------------------

  predicate NoBraceOrNewline(t: string)
  {
    forall i :: 0 <= i < |t| ==> t[i] != '}' && t[i] != '\n'
  }

  /**
   * Where the lazy `.*?` of a block opened just before `t` stops: at the
   * first `}`, unless a newline (which `.` does not match) or the end of
   * the text comes first.
   */
  function CloseIndex(t: string): (r: Option<nat>)
    ensures r.Some? ==> r.value < |t| && t[r.value] == '}' && NoBraceOrNewline(t[..r.value])
    ensures r.None? ==> forall q :: 0 <= q < |t| && t[q] == '}' ==> exists i :: 0 <= i < q && t[i] == '\n'
  {
    if t == [] then None
    else if t[0] == '}' then Some(0)
    else if t[0] == '\n' then None
    else
      match CloseIndex(t[1..])
      case None =>
        assert forall q :: 0 < q < |t| && t[q] == '}' ==> t[1..][q - 1] == '}';
        None
      case Some(q) =>
        assert t[..q + 1] == [t[0]] + t[1..][..q];
        Some(q + 1)
  }

  /** The bodies of the `{...}` blocks, in text order. */
  function Blocks(s: string): (r: seq<string>)
    ensures forall i :: 0 <= i < |r| ==> NoBraceOrNewline(r[i])
    decreases |s|
  {
    if s == [] then []
    else if s[0] == '{' then
      match CloseIndex(s[1..])
      case Some(q) => [s[1..][..q]] + Blocks(s[1..][q + 1..])
      case None => Blocks(s[1..])
    else Blocks(s[1..])
  }

  // ---------------------------------------------------------------------
  // re.findall(r'(\w+):([^\s,<>]+)', block)
  // ---------------------------------------------------------------------

  predicate IsValueToken(s: string)
  {
    |s| > 0 && forall i :: 0 <= i < |s| ==> IsValueChar(s[i])
  }

  /** Length of the run of `\w` characters at the start of `s`. */
  function WordRun(s: string): (k: nat)
    ensures k <= |s| && forall i :: 0 <= i < k ==> IsWordChar(s[i])
    ensures k < |s| ==> !IsWordChar(s[k])
  {
    if s == [] || !IsWordChar(s[0]) then 0 else 1 + WordRun(s[1..])
  }

  /** Length of the run of `[^\s,<>]` characters at the start of `s`. */
  function ValueRun(s: string): (k: nat)
    ensures k <= |s| && forall i :: 0 <= i < k ==> IsValueChar(s[i])
    ensures k < |s| ==> !IsValueChar(s[k])
  {
    if s == [] || !IsValueChar(s[0]) then 0 else 1 + ValueRun(s[1..])
  }

  /**
   * The (key, value) matches, scanning left to right. A match at a position
   * needs the whole word run there to be followed by `:` and at least one
   * value character (a shorter word cannot be followed by `:`); the value
   * takes every value character that follows. Without a match the scan moves
   * on by one character.
   */
  function Pairs(s: string): (r: seq<(string, string)>)
    ensures forall i :: 0 <= i < |r| ==> IsWord(r[i].0) && IsValueToken(r[i].1)
    decreases |s|
  {
    if s == [] then []
    else
      var w := WordRun(s);
      if 0 < w < |s| && s[w] == ':' && ValueRun(s[w + 1..]) > 0 then
        var rest := s[w + 1..];
        var v := ValueRun(rest);
        [(s[..w], rest[..v])] + Pairs(rest[v..])
      else Pairs(s[1..])
  }

  // ---------------------------------------------------------------------
  // Building the particle of one block
  // ---------------------------------------------------------------------

  /** The attribute loop's `try: float(v) except: v`. */
  function ParseValue(v: string): Value
  {
    match ParseNumber(v)
    case Some(n) => Num(n, true)
    case None => Str(v)
  }

  /** `float(pairs[name])`. */
  function ParseField(d: seq<(string, string)>, name: string): Result<int, DecodeError>
  {
    match Lookup(d, name)
    case None => Err(MissingField(name))
    case Some(t) =>
      match ParseNumber(t)
      case None => Err(NotANumber(name))
      case Some(n) => Ok(n)
  }

  predicate IsPositionKey(k: string)
  {
    k == "kind" || k == "x" || k == "y"
  }

  /** Every entry except `kind`, `x` and `y`, in dict order, its value read as a number or kept as text. */
  function Attributes(d: seq<(string, string)>): (a: Attrs)
    ensures |a| <= |d|
    ensures forall i :: 0 <= i < |a| ==> !IsPositionKey(a[i].0)
  {
    if d == [] then []
    else if IsPositionKey(d[0].0) then Attributes(d[1..])
    else [(d[0].0, ParseValue(d[0].1))] + Attributes(d[1..])
  }

  /** One loop iteration of decode: the particle of one block, or the error it raises. */
  function ParseBlock(block: string): Result<Particle, DecodeError>
  {
    var d := DictFromPairs(Pairs(block));
    match Lookup(d, "kind")
    case None => Err(MissingField("kind"))
    case Some(kind) =>
      match ParseField(d, "x")
      case Err(e) => Err(e)
      case Ok(x) =>
        match ParseField(d, "y")
        case Err(e) => Err(e)
        case Ok(y) => Ok(Particle(kind, Num(x, true), Num(y, true), Attributes(d)))
  }

  /**
   * A block fails on a missing `kind`, and otherwise its particle has the
   * last `kind` of the block and float positions read from its last `x`
   * and `y`.
   */
  lemma ParseBlockSpec(block: string)
    ensures ParseBlock(block) == Err(MissingField("kind")) <==> LastValue(Pairs(block), "kind").None?
    ensures ParseBlock(block).Ok? ==> Some(ParseBlock(block).value.kind) == LastValue(Pairs(block), "kind")
    ensures ParseBlock(block).Ok? ==> ParseBlock(block).value.x.Num? && ParseBlock(block).value.x.isFloat
    ensures ParseBlock(block).Ok? ==> ParseBlock(block).value.y.Num? && ParseBlock(block).value.y.isFloat
    ensures ParseBlock(block).Ok? ==>
              LastValue(Pairs(block), "x").Some? && Some(ParseBlock(block).value.x.n) == ParseNumber(LastValue(Pairs(block), "x").value)
    ensures ParseBlock(block).Ok? ==>
              LastValue(Pairs(block), "y").Some? && Some(ParseBlock(block).value.y.n) == ParseNumber(LastValue(Pairs(block), "y").value)
  {
    var ps := Pairs(block);
    var d := DictFromPairs(ps);
    FieldOfDict(d, ps, "kind");
    FieldOfDict(d, ps, "x");
    FieldOfDict(d, ps, "y");
    ParseFieldSpec(d, "x");
    ParseFieldSpec(d, "y");
  }

  lemma FieldOfDict(d: seq<(string, string)>, ps: seq<(string, string)>, k: string)
    requires d == DictFromPairs(ps)
    ensures Lookup(d, k) == LastValue(ps, k)
  {
  }

  lemma ParseFieldSpec(d: seq<(string, string)>, name: string)
    ensures ParseField(d, name).Ok? <==> Lookup(d, name).Some? && ParseNumber(Lookup(d, name).value).Some?
    ensures ParseField(d, name).Ok? ==> Some(ParseField(d, name).value) == ParseNumber(Lookup(d, name).value)
    ensures ParseField(d, name).Err? ==> ParseField(d, name).error != MissingField("kind") || name == "kind"
  {
  }

  /**
   * The block loop: the particles appended before the first block that
   * raises, and that block's error if there is one.
   */
  function ParseBlocks(blocks: seq<string>): (r: (seq<Particle>, Option<DecodeError>))
    ensures |r.0| <= |blocks|
    ensures forall i :: 0 <= i < |r.0| ==> ParseBlock(blocks[i]) == Ok(r.0[i])
    ensures r.1.None? ==> |r.0| == |blocks|
    ensures r.1.Some? ==> |r.0| < |blocks| && ParseBlock(blocks[|r.0|]) == Err(r.1.value)
  {
    if blocks == [] then ([], None)
    else
      match ParseBlock(blocks[0])
      case Err(e) => ([], Some(e))
      case Ok(p) =>
        var rest := ParseBlocks(blocks[1..]);
        ParseBlocksCons(ParseBlock, blocks, p, rest.0, rest.1);
        ([p] + rest.0, rest.1)
  }

  /** A parsed first block in front of the parse of the other blocks is the parse of them all. */
  lemma ParseBlocksCons(parse: string -> Result<Particle, DecodeError>, blocks: seq<string>, p: Particle,
                        ps: seq<Particle>, err: Option<DecodeError>)
    requires blocks != [] && parse(blocks[0]) == Ok(p) && |ps| <= |blocks| - 1
    requires forall i :: 0 <= i < |ps| ==> parse(blocks[1..][i]) == Ok(ps[i])
    requires err.Some? ==> |ps| < |blocks| - 1 && parse(blocks[1..][|ps|]) == Err(err.value)
    ensures forall i :: 0 <= i < |ps| + 1 ==> parse(blocks[i]) == Ok(([p] + ps)[i])
    ensures err.Some? ==> parse(blocks[|ps| + 1]) == Err(err.value)
  {
    forall i | 0 < i < |ps| + 1 ensures parse(blocks[i]) == Ok(([p] + ps)[i]) {
      assert blocks[i] == blocks[1..][i - 1] && ([p] + ps)[i] == ps[i - 1];
    }
    if err.Some? {
      assert blocks[|ps| + 1] == blocks[1..][|ps|];
    }
  }

  // ---------------------------------------------------------------------
  // sorted(particles, key=lambda p: p.attributes['id'])
  // ---------------------------------------------------------------------

  predicate HasId(p: Particle)
  {
    Lookup(p.attributes, "id").Some?
  }

  function Id(p: Particle): Value
    requires HasId(p)
  {
    Lookup(p.attributes, "id").value
  }

  /** Python's `<` on two strings: code-point lexicographic order. */
  predicate StrLess(a: string, b: string)
  {
    if a == [] then b != []
    else if b == [] then false
    else if a[0] != b[0] then a[0] < b[0]
    else StrLess(a[1..], b[1..])
  }

  /** Python's `<` on two ids of the same type. */
  predicate Less(a: Value, b: Value)
  {
    match (a, b)
    case (Num(m, _), Num(n, _)) => m < n
    case (Str(s), Str(t)) => StrLess(s, t)
    case _ => false
  }

  predicate AllHaveIds(ps: seq<Particle>)
  {
    forall i :: 0 <= i < |ps| ==> HasId(ps[i])
  }

  /** The exception `sorted` raises, if any: a missing id, or a number id and a string id to compare. */
  function SortError(ps: seq<Particle>): (r: Option<DecodeError>)
    ensures r.None? ==> AllHaveIds(ps)
  {
    if !AllHaveIds(ps) then Some(MissingId)
    else if (exists i :: 0 <= i < |ps| && Id(ps[i]).Num?) && (exists j :: 0 <= j < |ps| && Id(ps[j]).Str?) then
      Some(UnorderableIds)
    else None
  }

  /** Places `p` after every particle whose id is not greater, so equal ids keep their order. */
  function Insert(p: Particle, ps: seq<Particle>): (r: seq<Particle>)
    requires HasId(p) && AllHaveIds(ps)
    ensures |r| == |ps| + 1
    ensures AllHaveIds(r)
  {
    if ps == [] then [p]
    else if Less(Id(p), Id(ps[0])) then [p] + ps
    else [ps[0]] + Insert(p, ps[1..])
  }

  /** Insertion adds `p` and loses nothing. */
  lemma {:induction false} InsertPermutes(p: Particle, ps: seq<Particle>)
    requires HasId(p) && AllHaveIds(ps)
    ensures multiset(Insert(p, ps)) == multiset(ps) + multiset{p}
    decreases |ps|
  {
    if ps != [] && !Less(Id(p), Id(ps[0])) {
      InsertPermutes(p, ps[1..]);
      assert ps == [ps[0]] + ps[1..];
    }
  }

  /** A stable sort by id, inserting the particles one by one in list order. */
  function SortById(ps: seq<Particle>): (r: seq<Particle>)
    requires AllHaveIds(ps)
    ensures |r| == |ps|
    ensures AllHaveIds(r)
  {
    if ps == [] then []
    else
      var init := ps[..|ps| - 1];
      Insert(ps[|ps| - 1], SortById(init))
  }

  /** The sort rearranges the particles and loses none. */
  lemma {:induction false} SortByIdPermutes(ps: seq<Particle>)
    requires AllHaveIds(ps)
    ensures multiset(SortById(ps)) == multiset(ps)
    decreases |ps|
  {
    if ps != [] {
      var init := ps[..|ps| - 1];
      SortByIdPermutes(init);
      InsertPermutes(ps[|ps| - 1], SortById(init));
      assert ps == init + [ps[|ps| - 1]];
    }
  }

  lemma {:induction false} StrLessIrreflexive(a: string)
    ensures !StrLess(a, a)
    decreases |a|
  {
    if a != [] {
      StrLessIrreflexive(a[1..]);
    }
  }

  lemma {:induction false} StrLessTransitive(a: string, b: string, c: string)
    requires StrLess(a, b) && StrLess(b, c)
    ensures StrLess(a, c)
    decreases |a|
  {
    if a != [] && a[0] == b[0] && b[0] == c[0] {
      StrLessTransitive(a[1..], b[1..], c[1..]);
    }
  }

  /** Two strings neither of which is below the other are equal. */
  lemma {:induction false} StrLessTotal(a: string, b: string)
    requires !StrLess(a, b) && !StrLess(b, a)
    ensures a == b
    decreases |a|
  {
    if a != [] && b != [] {
      StrLessTotal(a[1..], b[1..]);
      assert a == [a[0]] + a[1..] && b == [b[0]] + b[1..];
    }
  }

  /** `<` on ids is a strict order. */
  lemma LessIsStrictOrder(a: Value, b: Value, c: Value)
    ensures !Less(a, a)
    ensures Less(a, b) && Less(b, c) ==> Less(a, c)
  {
    if a.Str? {
      StrLessIrreflexive(a.s);
      if Less(a, b) && Less(b, c) {
        StrLessTransitive(a.s, b.s, c.s);
      }
    }
  }

  /** Ids of the same type that are not ordered either way are equal as Python sees them. */
  lemma LessIsTotal(a: Value, b: Value)
    requires a.Num? == b.Num?
    requires !Less(a, b) && !Less(b, a)
    ensures a.Num? ==> a.n == b.n
    ensures a.Str? ==> a.s == b.s
  {
    if a.Str? {
      StrLessTotal(a.s, b.s);
    }
  }

  /** No particle has an id smaller than that of one before it. */
  predicate SortedById(ps: seq<Particle>)
  {
    AllHaveIds(ps) && forall i, j :: 0 <= i < j < |ps| ==> !Less(Id(ps[j]), Id(ps[i]))
  }

  /** The ids are all numbers or all strings. */
  predicate SameIdType(ps: seq<Particle>)
  {
    AllHaveIds(ps) && ((forall i :: 0 <= i < |ps| ==> Id(ps[i]).Num?) || (forall i :: 0 <= i < |ps| ==> Id(ps[i]).Str?))
  }

  /** sorted raises exactly when an id is missing or the ids mix numbers and strings. */
  lemma SortErrorIff(ps: seq<Particle>)
    ensures SortError(ps).None? <==> SameIdType(ps)
    ensures SortError(ps) == Some(MissingId) <==> !AllHaveIds(ps)
  {
  }

  /** A particle not above any of a sorted list can be put in front of it. */
  lemma SortedCons(q: Particle, ps: seq<Particle>)
    requires HasId(q) && SortedById(ps)
    requires forall j :: 0 <= j < |ps| ==> !Less(Id(ps[j]), Id(q))
    ensures SortedById([q] + ps)
  {
    var r := [q] + ps;
    forall i, j | 0 <= i < j < |r| ensures !Less(Id(r[j]), Id(r[i])) {
      if i == 0 {
        assert r[j] == ps[j - 1];
      } else {
        assert r[i] == ps[i - 1] && r[j] == ps[j - 1];
      }
    }
  }

  /** Inserting into a sorted list keeps it sorted. */
  lemma {:induction false} InsertSorted(p: Particle, ps: seq<Particle>)
    requires HasId(p) && SortedById(ps)
    ensures SortedById(Insert(p, ps))
    decreases |ps|
  {
    if ps == [] {
    } else if Less(Id(p), Id(ps[0])) {
      forall j | 0 <= j < |ps| ensures !Less(Id(ps[j]), Id(p)) {
        LessIsStrictOrder(Id(ps[j]), Id(p), Id(ps[0]));
        LessIsStrictOrder(Id(ps[0]), Id(ps[0]), Id(ps[0]));
      }
      SortedCons(p, ps);
    } else {
      var t := Insert(p, ps[1..]);
      SortedTail(ps);
      InsertSorted(p, ps[1..]);
      InsertPermutes(p, ps[1..]);
      forall j | 0 <= j < |t| ensures !Less(Id(t[j]), Id(ps[0])) {
        NotBelowHead(p, ps, t, j);
      }
      SortedCons(ps[0], t);
    }
  }

  lemma NotBelowHead(p: Particle, ps: seq<Particle>, t: seq<Particle>, j: nat)
    requires HasId(p) && SortedById(ps) && ps != [] && !Less(Id(p), Id(ps[0]))
    requires multiset(t) == multiset(ps[1..]) + multiset{p} && j < |t|
    ensures HasId(t[j]) && !Less(Id(t[j]), Id(ps[0]))
  {
    assert t[j] in multiset(t);
    if t[j] != p {
      assert t[j] in multiset(ps[1..]);
      var k :| 0 <= k < |ps[1..]| && ps[1..][k] == t[j];
      assert ps[k + 1] == t[j];
    }
  }

  /** The sort yields a list ordered by id. */
  lemma {:induction false} SortByIdSorted(ps: seq<Particle>)
    requires AllHaveIds(ps)
    ensures SortedById(SortById(ps))
    decreases |ps|
  {
    if ps != [] {
      var init := ps[..|ps| - 1];
      SortByIdSorted(init);
      InsertSorted(ps[|ps| - 1], SortById(init));
    }
  }

  /** A particle whose id is not below any id of a list goes to its end. */
  lemma {:induction false} InsertLast(p: Particle, ps: seq<Particle>)
    requires HasId(p) && AllHaveIds(ps)
    requires forall i :: 0 <= i < |ps| ==> !Less(Id(p), Id(ps[i]))
    ensures Insert(p, ps) == ps + [p]
    decreases |ps|
  {
    if ps != [] {
      assert forall i :: 0 <= i < |ps[1..]| ==> ps[1..][i] == ps[i + 1];
      InsertLast(p, ps[1..]);
      assert ps == [ps[0]] + ps[1..];
    }
  }

  /** Sorting a list already ordered by id leaves it as it is. */
  lemma {:induction false} SortByIdOfSorted(ps: seq<Particle>)
    requires SortedById(ps)
    ensures SortById(ps) == ps
    decreases |ps|
  {
    if ps != [] {
      var init := ps[..|ps| - 1];
      assert SortedById(init) by {
        forall i, j | 0 <= i < j < |init| ensures !Less(Id(init[j]), Id(init[i])) {
          assert init[i] == ps[i] && init[j] == ps[j];
        }
      }
      SortByIdOfSorted(init);
      InsertLast(ps[|ps| - 1], init);
      assert init + [ps[|ps| - 1]] == ps;
    }
  }

  /** Python's `==` on two ids. */
  predicate SameKey(a: Value, b: Value)
  {
    (a.Num? && b.Num? && a.n == b.n) || (a.Str? && b.Str? && a.s == b.s)
  }

  /** The particles whose id equals `v`, in list order. */
  function WithId(ps: seq<Particle>, v: Value): (r: seq<Particle>)
    ensures |r| <= |ps|
  {
    if ps == [] then []
    else if HasId(ps[0]) && SameKey(Id(ps[0]), v) then [ps[0]] + WithId(ps[1..], v)
    else WithId(ps[1..], v)
  }

  lemma {:induction false} WithIdAppend(a: seq<Particle>, b: seq<Particle>, v: Value)
    ensures WithId(a + b, v) == WithId(a, v) + WithId(b, v)
    decreases |a|
  {
    if a == [] {
      assert a + b == b;
    } else {
      assert (a + b)[1..] == a[1..] + b;
      WithIdAppend(a[1..], b, v);
    }
  }

  lemma {:induction false} WithIdNone(ps: seq<Particle>, v: Value)
    requires forall i :: 0 <= i < |ps| ==> !HasId(ps[i]) || !SameKey(Id(ps[i]), v)
    ensures WithId(ps, v) == []
    decreases |ps|
  {
    if ps != [] {
      assert forall i :: 0 <= i < |ps[1..]| ==> ps[1..][i] == ps[i + 1];
      WithIdNone(ps[1..], v);
    }
  }

  /** Ids of one type that are not in order either way are equal. */
  lemma Trichotomy(a: Value, b: Value)
    requires a.Num? == b.Num?
    ensures Less(a, b) || Less(b, a) || SameKey(a, b)
  {
    if !Less(a, b) && !Less(b, a) {
      LessIsTotal(a, b);
    }
  }

  lemma SortedTail(ps: seq<Particle>)
    requires SortedById(ps) && ps != []
    ensures SortedById(ps[1..])
  {
    forall i, j | 0 <= i < j < |ps[1..]| ensures !Less(Id(ps[1..][j]), Id(ps[1..][i])) {
      assert ps[1..][i] == ps[i + 1] && ps[1..][j] == ps[j + 1];
    }
  }

  /** In a list ordered by id, nothing at or after an id above `p`'s has `p`'s id. */
  lemma NoTiesAfterGreater(p: Particle, ps: seq<Particle>, v: Value)
    requires HasId(p) && SortedById(ps) && ps != []
    requires forall i :: 0 <= i < |ps| ==> Id(ps[i]).Num? == Id(p).Num?
    requires Less(Id(p), Id(ps[0])) && SameKey(Id(p), v)
    ensures WithId(ps, v) == []
  {
    forall j | 0 <= j < |ps| ensures !SameKey(Id(ps[j]), v) {
      if j > 0 {
        Trichotomy(Id(ps[0]), Id(ps[j]));
        LessIsStrictOrder(Id(p), Id(ps[0]), Id(ps[j]));
      }
      LessIsStrictOrder(Id(p), Id(p), Id(p));
    }
    WithIdNone(ps, v);
  }

  /** Inserting `p` adds it after every particle of equal id already there. */
  lemma {:induction false} InsertStable(p: Particle, ps: seq<Particle>, v: Value)
    requires HasId(p) && SortedById(ps)
    requires forall i :: 0 <= i < |ps| ==> Id(ps[i]).Num? == Id(p).Num?
    ensures WithId(Insert(p, ps), v) == WithId(ps, v) + WithId([p], v)
    decreases |ps|
  {
    if ps == [] {
      assert WithId(ps, v) == [];
    } else if Less(Id(p), Id(ps[0])) {
      assert Insert(p, ps) == [p] + ps;
      WithIdAppend([p], ps, v);
      if SameKey(Id(p), v) {
        NoTiesAfterGreater(p, ps, v);
      } else {
        assert WithId([p], v) == [];
      }
    } else {
      var t := ps[1..];
      SortedTail(ps);
      assert forall i :: 0 <= i < |t| ==> t[i] == ps[i + 1];
      InsertStable(p, t, v);
      InsertBehindHead(p, ps, v);
    }
  }

  lemma InsertBehindHead(p: Particle, ps: seq<Particle>, v: Value)
    requires HasId(p) && AllHaveIds(ps) && ps != [] && !Less(Id(p), Id(ps[0]))
    requires WithId(Insert(p, ps[1..]), v) == WithId(ps[1..], v) + WithId([p], v)
    ensures WithId(Insert(p, ps), v) == WithId(ps, v) + WithId([p], v)
  {
    var h, t := [ps[0]], ps[1..];
    var ins := Insert(p, t);
    assert Insert(p, ps) == h + ins;
    HeadTail(ps);
    WithIdAppend(h, ins, v);
    WithIdAppend(h, t, v);
    ConcatAssoc(WithId(h, v), WithId(t, v), WithId([p], v));
  }

  lemma FromMultiset(s: seq<Particle>, ps: seq<Particle>, i: nat)
    requires multiset(s) == multiset(ps) && i < |s|
    ensures exists k :: 0 <= k < |ps| && ps[k] == s[i]
  {
    assert s[i] in multiset(ps);
  }

  /** The sort is stable: particles of equal id keep their relative order. */
  lemma {:induction false} SortByIdStable(ps: seq<Particle>, v: Value)
    requires SameIdType(ps)
    ensures WithId(SortById(ps), v) == WithId(ps, v)
    decreases |ps|
  {
    if ps != [] {
      var init, last := ps[..|ps| - 1], ps[|ps| - 1];
      var s := SortById(init);
      assert SortById(ps) == Insert(last, s);
      InitSameIdType(ps);
      SortByIdStable(init, v);
      SortByIdSorted(init);
      SortedLikeLast(ps);
      InsertStable(last, s, v);
      WithIdAppend(init, [last], v);
      assert init + [last] == ps;
    }
  }

  lemma InitSameIdType(ps: seq<Particle>)
    requires SameIdType(ps) && ps != []
    ensures SameIdType(ps[..|ps| - 1])
  {
    var init := ps[..|ps| - 1];
    assert forall i :: 0 <= i < |init| ==> init[i] == ps[i];
  }

  /** The sorted prefix holds ids of the same type as the last particle. */
  lemma SortedLikeLast(ps: seq<Particle>)
    requires SameIdType(ps) && ps != []
    ensures var s := SortById(ps[..|ps| - 1]);
      forall i :: 0 <= i < |s| ==> Id(s[i]).Num? == Id(ps[|ps| - 1]).Num?
  {
    var init := ps[..|ps| - 1];
    var s := SortById(init);
    SortByIdPermutes(init);
    forall i | 0 <= i < |s| ensures Id(s[i]).Num? == Id(ps[|ps| - 1]).Num? {
      FromMultiset(s, init, i);
      var k :| 0 <= k < |init| && init[k] == s[i];
      assert ps[k] == s[i];
    }
  }

  // ---------------------------------------------------------------------
  // decode as a whole
  // ---------------------------------------------------------------------

  /** What decode leaves in `self.particles`, and what it returns or raises. */
  datatype Decoded = Decoded(particles: seq<Particle>, result: Result<string, DecodeError>)

  lemma IdsMakePrintable(ps: seq<Particle>)
    requires AllHaveIds(ps)
    ensures AllPrintable(ps)
  {
  }

  /**
   * decode: the list is cleared, one particle is appended per block until a
   * block raises; if none does, the list is replaced by its sort by id, and
   * the encoding of the sorted list is returned. It fails with the KeyError
   * or ValueError of the first bad block, with a KeyError when a particle has
   * no id, or with a TypeError when number and string ids meet; when the
   * sort raises the list keeps the parsed particles in text order.
   */
  function DecodeSpec(text: string): (r: Decoded)
    ensures var parsed := ParseBlocks(Blocks(text));
      r.result.Ok? <==> parsed.1.None? && SameIdType(parsed.0)
    ensures var parsed := ParseBlocks(Blocks(text));
      parsed.1.Some? ==> r == Decoded(parsed.0, Err(parsed.1.value))
    ensures var parsed := ParseBlocks(Blocks(text));
      parsed.1.None? && !AllHaveIds(parsed.0) ==> r == Decoded(parsed.0, Err(MissingId))
    ensures var parsed := ParseBlocks(Blocks(text));
      parsed.1.None? && AllHaveIds(parsed.0) && !SameIdType(parsed.0) ==> r == Decoded(parsed.0, Err(UnorderableIds))
    ensures r.result.Ok? ==> SortedById(r.particles) && AllPrintable(r.particles)
    ensures r.result.Ok? ==> r.result.value == EncodeAll(r.particles)
    ensures r.result.Ok? ==> multiset(r.particles) == multiset(ParseBlocks(Blocks(text)).0)
    ensures r.result.Err? && r.result.error != MissingId && r.result.error != UnorderableIds ==>
              r.particles == ParseBlocks(Blocks(text)).0 && |r.particles| < |Blocks(text)|
  {
    var parsed := ParseBlocks(Blocks(text));
    SortErrorIff(parsed.0);
    if parsed.1.Some? then Decoded(parsed.0, Err(parsed.1.value))
    else
      match SortError(parsed.0)
      case Some(e) => Decoded(parsed.0, Err(e))
      case None =>
        var sorted := SortById(parsed.0);
        SortByIdSorted(parsed.0);
        SortByIdPermutes(parsed.0);
        IdsMakePrintable(sorted);
        Decoded(sorted, Ok(EncodeAll(sorted)))
  }
}
