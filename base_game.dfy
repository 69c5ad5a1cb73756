/**
 * `BaseGame` of survivor/base_game.py: a particle list bounded by a
 * capacity, its text encoding (in list order or in a shuffled order), its
 * replacement by a decoded text, and the five-flag input mapping.
 */
module Base {
  import opened Wrappers
  import opened Lists
  import opened Particles
  import opened Decoding

  /** The accumulation loop shared by encode and shuffle_encode. */
  method EncodeLoop(ps: seq<Particle>) returns (s: string)
    requires AllPrintable(ps)
    ensures s == EncodeAll(ps)
  {
    s := "";
    var i := 0;
    while i < |ps|
      invariant 0 <= i <= |ps|
      invariant s == EncodeAll(ps[..i])
    {
      var line := ToStr(ps[i]);
      EncodeOneMore(ps, i);
      s := s + line;
      i := i + 1;
    }
    assert ps[..i] == ps;
  }

  /** Encoding one more particle appends its line. */
  lemma EncodeOneMore(ps: seq<Particle>, i: nat)
    requires AllPrintable(ps) && i < |ps|
    ensures AllPrintable(ps[..i]) && AllPrintable(ps[..i + 1])
    ensures EncodeAll(ps[..i + 1]) == EncodeAll(ps[..i]) + ToStr(ps[i])
  {
    assert ps[..i + 1] == ps[..i] + [ps[i]];
    assert EncodeAll([ps[i]]) == ToStr(ps[i]) + EncodeAll([]);
    EncodeAppend(ps[..i], [ps[i]]);
  }

  /**
   * The block loop stops at the first block that raises: a prefix whose
   * blocks all parsed, followed by the end or by a failing block, is what
   * ParseBlocks describes.
   */
  lemma ParseBlocksAt(blocks: seq<string>, ps: seq<Particle>, err: Option<DecodeError>)
    requires |ps| <= |blocks|
    requires forall j :: 0 <= j < |ps| ==> ParseBlock(blocks[j]) == Ok(ps[j])
    requires err.None? ==> |ps| == |blocks|
    requires err.Some? ==> |ps| < |blocks| && ParseBlock(blocks[|ps|]) == Err(err.value)
    ensures ParseBlocks(blocks) == (ps, err)
  {
    var r := ParseBlocks(blocks);
    assert |r.0| == |ps|;
    assert r.0 == ps by {
      forall j | 0 <= j < |ps| ensures r.0[j] == ps[j] {
        assert ParseBlock(blocks[j]) == Ok(r.0[j]);
      }
    }
    assert r.1 == err;
  }

  /** One more block that parses extends the parsed prefix by its particle. */
  lemma ParsedOneMore(parse: string -> Result<Particle, DecodeError>, blocks: seq<string>, ps: seq<Particle>, p: Particle)
    requires |ps| < |blocks| && parse(blocks[|ps|]) == Ok(p)
    requires forall j :: 0 <= j < |ps| ==> parse(blocks[j]) == Ok(ps[j])
    ensures forall j :: 0 <= j < |ps| + 1 ==> parse(blocks[j]) == Ok((ps + [p])[j])
  {
  }

  lemma DecodeOfParseError(text: string, ps: seq<Particle>, e: DecodeError)
    requires ParseBlocks(Blocks(text)) == (ps, Some(e))
    ensures DecodeSpec(text) == Decoded(ps, Err(e))
  {
  }

  lemma DecodeOfSortError(text: string, ps: seq<Particle>, e: DecodeError)
    requires ParseBlocks(Blocks(text)) == (ps, None) && SortError(ps) == Some(e)
    ensures DecodeSpec(text) == Decoded(ps, Err(e))
  {
  }

  lemma DecodeOfSorted(text: string, ps: seq<Particle>)
    requires ParseBlocks(Blocks(text)) == (ps, None) && SortError(ps).None?
    ensures AllPrintable(SortById(ps))
    ensures DecodeSpec(text) == Decoded(SortById(ps), Ok(EncodeAll(SortById(ps))))
  {
    IdsMakePrintable(SortById(ps));
  }

  class BaseGame {
    var particles: seq<Particle>
    var maxNumParticles: int

    /** The list never holds more particles than the capacity allows. */
    ghost predicate Valid()
      reads this
    {
      |particles| <= maxNumParticles
    }

    constructor(maxNumParticles: int)
      ensures particles == [] && this.maxNumParticles == maxNumParticles
      ensures maxNumParticles >= 0 ==> Valid()
    {
      particles := [];
      this.maxNumParticles := maxNumParticles;
    }

    method ClearParticles()
      modifies this
      ensures particles == [] && maxNumParticles == old(maxNumParticles)
      ensures old(Valid()) ==> Valid()
    {
      particles := [];
    }

    /** create_particle: asserts there is room, then appends the new particle at the end. */
    method CreateParticle(kind: string, x: Value, y: Value, attributes: Attrs) returns (p: Particle)
      requires |particles| < maxNumParticles
      modifies this
      ensures p == Particle(kind, x, y, attributes)
      ensures particles == old(particles) + [p]
      ensures maxNumParticles == old(maxNumParticles)
      ensures Valid()
    {
      p := Particle(kind, x, y, attributes);
      particles := particles + [p];
    }

    /** remove_particle: asserts membership, then removes the first occurrence, keeping the order of the rest. */
    method RemoveParticle(p: Particle)
      requires p in particles
      modifies this
      ensures particles == RemoveFirst(old(particles), p)
      ensures |particles| == |old(particles)| - 1
      ensures multiset(particles) == multiset(old(particles)) - multiset{p}
      ensures maxNumParticles == old(maxNumParticles)
      ensures old(Valid()) ==> Valid()
    {
      particles := RemoveFirst(particles, p);
    }

    /** get_particle: the first particle of the kind, or None when there is none. */
    function GetParticle(kind: string): (r: Option<Particle>)
      reads this
      ensures r.Some? ==> r.value.kind == kind
      ensures r.Some? ==> exists i :: 0 <= i < |particles| && particles[i] == r.value && NoneOfKindBefore(particles, kind, i)
      ensures r.None? <==> forall i :: 0 <= i < |particles| ==> particles[i].kind != kind
    {
      FirstOfKind(particles, kind)
    }

    /** get_particles: the particles of the kind, each as often as the list holds it, in list order. */
    function GetParticles(kind: string): (r: seq<Particle>)
      reads this
      ensures forall i :: 0 <= i < |r| ==> r[i].kind == kind
      ensures forall p :: p in particles && p.kind == kind <==> p in r
      ensures forall p :: multiset(r)[p] == if p.kind == kind then multiset(particles)[p] else 0
      ensures particles == [] ==> r == []
      ensures forall a, b :: particles == a + b ==> r == AllOfKind(a, kind) + AllOfKind(b, kind)
    {
      AllOfKindCounts(particles, kind);
      forall a, b | particles == a + b
        ensures AllOfKind(particles, kind) == AllOfKind(a, kind) + AllOfKind(b, kind)
      {
        AllOfKindAppend(a, b, kind);
      }
      AllOfKind(particles, kind)
    }

    /** encode: the lines of all particles in list order. */
    method Encode() returns (s: string)
      requires AllPrintable(particles)
      ensures s == EncodeAll(particles)
    {
      s := EncodeLoop(particles);
    }

    /**
     * shuffle_encode: encodes a reordered copy and leaves the list as it is.
     * `shuffled` is the order random.shuffle produced.
     */
    method ShuffleEncode(shuffled: seq<Particle>) returns (s: string)
      requires AllPrintable(particles)
      requires multiset(shuffled) == multiset(particles)
      ensures AllPrintable(shuffled) && s == EncodeAll(shuffled)
      ensures multiset(Lines(shuffled)) == multiset(Lines(particles))
    {
      forall i | 0 <= i < |shuffled| ensures Printable(shuffled[i]) {
        assert shuffled[i] in multiset(particles);
      }
      s := EncodeLoop(shuffled);
      LinesPermutation(shuffled, particles);
    }

    /**
     * decode: replaces the list by the particles of the text's blocks,
     * sorted by id, and returns their encoding; raises on a block without
     * a numeric x or y or without a kind, and on ids that cannot be sorted.
     */
    method Decode(text: string) returns (r: Result<string, DecodeError>)
      modifies this
      ensures particles == DecodeSpec(text).particles
      ensures r == DecodeSpec(text).result
      ensures maxNumParticles == old(maxNumParticles)
    {
      var blocks := Blocks(text);
      particles := [];
      var i := 0;
      while i < |blocks|
        invariant 0 <= i <= |blocks| && |particles| == i
        invariant maxNumParticles == old(maxNumParticles)
        invariant forall j :: 0 <= j < i ==> ParseBlock(blocks[j]) == Ok(particles[j])
      {
        var parsed := ParseBlock(blocks[i]);
        if parsed.Err? {
          ParseBlocksAt(blocks, particles, Some(parsed.error));
          DecodeOfParseError(text, particles, parsed.error);
          return Err(parsed.error);
        }
        ParsedOneMore(ParseBlock, blocks, particles, parsed.value);
        particles := particles + [parsed.value];
        i := i + 1;
      }
      ParseBlocksAt(blocks, particles, None);
      var err := SortError(particles);
      if err.Some? {
        DecodeOfSortError(text, particles, err.value);
        return Err(err.value);
      }
      var parsed := particles;
      particles := SortById(parsed);
      IdsMakePrintable(particles);
      var s := EncodeLoop(particles);
      DecodeOfSorted(text, parsed);
      return Ok(s);
    }
  }

  // -----------------------------------------------------------------------
  // Input mapping
  // -----------------------------------------------------------------------

  /** The browser key names get_user_inputs looks for, flag by flag. */
  const InputKeys: seq<string> := ["ArrowLeft", "ArrowRight", "ArrowUp", "ArrowDown", " "]

  /** The names get_user_keys emits, flag by flag. */
  const ActionNames: seq<string> := ["arrow left", "arrow right", "arrow up", "arrow down", "space"]

  /** get_user_inputs: five flags, each telling whether its key is held. */
  function UserInputs(keys: seq<string>): (flags: seq<bool>)
    ensures |flags| == 5
    ensures forall i :: 0 <= i < 5 ==> (flags[i] <==> InputKeys[i] in keys)
  {
    seq(5, i requires 0 <= i < 5 => InputKeys[i] in keys)
  }

  /** The elements of `xs` whose flag is raised, in order. */
  function Selected<T>(xs: seq<T>, flags: seq<bool>): (r: seq<T>)
    requires |flags| == |xs|
    ensures |r| <= |xs|
  {
    if xs == [] then [] else (if flags[0] then [xs[0]] else []) + Selected(xs[1..], flags[1..])
  }

  /** Of distinct elements, one is selected exactly when its flag is raised. */
  lemma {:induction false} SelectedHas<T>(xs: seq<T>, flags: seq<bool>, i: nat)
    requires |flags| == |xs| && i < |xs|
    requires forall j, k :: 0 <= j < k < |xs| ==> xs[j] != xs[k]
    ensures xs[i] in Selected(xs, flags) <==> flags[i]
    ensures forall x :: x in Selected(xs, flags) ==> x in xs
    decreases |xs|
  {
    var t := xs[1..];
    assert forall j, k :: 0 <= j < k < |t| ==> t[j] != t[k] by {
      forall j, k | 0 <= j < k < |t| ensures t[j] != t[k] {
        assert t[j] == xs[j + 1] && t[k] == xs[k + 1];
      }
    }
    if i > 0 {
      SelectedHas(t, flags[1..], i - 1);
      assert xs[i] == t[i - 1] && xs[i] != xs[0];
    } else if |xs| > 1 {
      SelectedHas(t, flags[1..], 0);
      assert xs[0] !in t by {
        forall k | 0 <= k < |t| ensures t[k] != xs[0] {
          assert t[k] == xs[k + 1];
        }
      }
    }
  }

  function Pick<T>(flag: bool, x: T): seq<T>
  {
    if flag then [x] else []
  }

  /** Selected unfolds one element at a time. */
  lemma SelectedFrom<T>(xs: seq<T>, flags: seq<bool>, k: nat)
    requires |flags| == |xs| && k < |xs|
    ensures Selected(xs[k..], flags[k..]) == Pick(flags[k], xs[k]) + Selected(xs[k + 1..], flags[k + 1..])
  {
    assert xs[k..][1..] == xs[k + 1..] && flags[k..][1..] == flags[k + 1..];
  }

  /** Selected over five elements, written out. */
  lemma SelectedFive<T>(n: seq<T>, a: seq<bool>)
    requires |n| == 5 && |a| == 5
    ensures Selected(n, a) == Pick(a[0], n[0]) + Pick(a[1], n[1]) + Pick(a[2], n[2]) + Pick(a[3], n[3]) + Pick(a[4], n[4])
  {
    WholeSuffix(n, a);
    SelectedFrom(n, a, 0);
    SelectedFrom(n, a, 1);
    SelectedFrom(n, a, 2);
    SelectedFrom(n, a, 3);
    SelectedFrom(n, a, 4);
    EmptySuffix(n, a);
    Regroup(Pick(a[0], n[0]), Pick(a[1], n[1]), Pick(a[2], n[2]), Pick(a[3], n[3]), Pick(a[4], n[4]));
  }

  lemma WholeSuffix<T>(n: seq<T>, a: seq<bool>)
    ensures n[0..] == n && a[0..] == a
  {
  }

  lemma EmptySuffix<T>(n: seq<T>, a: seq<bool>)
    requires |n| == 5 && |a| == 5
    ensures Selected(n[5..], a[5..]) == []
  {
    assert n[5..] == [];
  }

  lemma Regroup<T>(p0: seq<T>, p1: seq<T>, p2: seq<T>, p3: seq<T>, p4: seq<T>)
    ensures p0 + (p1 + (p2 + (p3 + (p4 + [])))) == p0 + p1 + p2 + p3 + p4
  {
    assert p4 + [] == p4;
  }

  /**
   * get_user_keys: one name per raised flag, in the order left, right, up,
   * down, space; None for a list of fewer than five flags, on which the
   * indexing raises IndexError.
   */
  function UserKeys(actions: seq<bool>): (r: Option<seq<string>>)
    ensures r.None? <==> |actions| < 5
    ensures r.Some? ==> r.value == Selected(ActionNames, actions[..5])
  {
    if |actions| < 5 then None
    else
      var names :=
        Pick(actions[0], "arrow left")
        + Pick(actions[1], "arrow right")
        + Pick(actions[2], "arrow up")
        + Pick(actions[3], "arrow down")
        + Pick(actions[4], "space");
      assert names == Selected(ActionNames, actions[..5]) by {
        SelectedFive(ActionNames, actions[..5]);
      }
      Some(names)
  }

  /** Each name is present exactly when its flag is raised, and nothing else is. */
  lemma UserKeysNames(actions: seq<bool>)
    requires |actions| >= 5
    ensures UserKeys(actions).Some?
    ensures forall i :: 0 <= i < 5 ==> (ActionNames[i] in UserKeys(actions).value <==> actions[i])
    ensures forall s :: s in UserKeys(actions).value ==> s in ActionNames
  {
    forall i | 0 <= i < 5 ensures ActionNames[i] in UserKeys(actions).value <==> actions[i] {
      SelectedHas(ActionNames, actions[..5], i);
    }
    SelectedHas(ActionNames, actions[..5], 0);
  }
}
