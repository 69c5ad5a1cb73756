# Survivor core in Dafny

A model of the core of a small arcade "survivors" game served to agents over an API, together with proofs about it.

The model has three parts:

- **Health component** (`survivor/health_system.py`). `HealthSystem` keeps the base hit points, the maximum hit points, the current hit points and an alive flag. Its operations are damage, healing, revival and reset.
- **Particle store and text codec** (`survivor/base_game.py`):
  - a `Particle` has a kind, an `x`/`y` position and a dictionary of attributes;
  - `BaseGame` holds a list of particles with a maximum, and can clear, create, remove and look them up;
  - `encode` writes one `{key:value, ...}` line per particle;
  - `decode` parses such a text back and sorts the result by `id`;
  - the five key flags are turned into key names.
- **Survivor rules** (`survivor/games/survivor.py`). These are the integer and discrete rules of the game:
  - the weapon catalogue and its level tables;
  - the upgrade menu and the debug toolbar's level buttons;
  - enemy waves and the top-up of enemies;
  - the spawning of every weapon shape;
  - weapon and health timers, the homing missiles' piercing, damage and death;
  - damage texts, experience orbs and levelling;
  - player movement;
  - the frame loop `step`.

The modules follow that structure:

| file | module | contents |
|---|---|---|
| wrappers.dfy | Wrappers | `Option` and `Result` for the source's `None` returns and raised errors |
| lists.dfy | Lists | Python list and dict operations: `list.remove`, lookup, dicts as ordered entry lists |
| text.dfy | Text | character classes, integer printing and `float()` reading of number text |
| health.dfy | Health | the health component as a value and the `HealthSystem` class proved against it |
| particles.dfy | Particles | `Particle.to_str`, `encode` and the two kind queries |
| decode.dfy | Decoding | the two regular expressions of `decode`, the dict built from them and the sort by `id` |
| roundtrip.dfy | RoundTrip | what survives `decode(encode())` |
| base_game.dfy | Base | the `BaseGame` class: the bounded particle list, encoding, decoding and input flags |
| catalog.dfy | Catalog | the weapon catalogue, level tables and their prefix-sum arithmetic |
| entities.dfy | Entities | typed particle records, constants, `is_point_in_rect`, `check_collision`, `format_time` |
| rules.dfy | Rules | levels, experience, timers, pierce counting, homing targets, spawned records |
| sim.dfy | Sim | the whole game state as a value and every frame rule as a function on it |
| game.dfy | Survivor | the `Game` class, updated in place and proved against module Sim |

## Model

| member | source | states |
|---|---|---|
| Health.Truncate | survivor/health_system.py:63 | `int()` of a real: the whole number between 0 and the value, less than one away from it |
| Health.Fresh | survivor/health_system.py:2-13 | a new component has `maxHp` = `baseHp` unless given, full hit points and is alive; with `maxHp >= 0` it satisfies `0 <= currentHp <= maxHp` |
| Health.Damaged | survivor/health_system.py:15-30 | take_damage: hit points become `max(0, old - d)`; zero hit points means dead; damage never brings an entity back; non-negative damage keeps the range |
| Health.Healed | survivor/health_system.py:32-48 | heal: a dead entity is unchanged; a live one gains `a` capped at `maxHp`; non-negative healing keeps the range and never lowers hit points |
| Health.HealAmount | survivor/health_system.py:42-48 | heal's return value is 0 for a dead entity and otherwise exactly the increase, between 0 and the amount asked |
| Health.Revived | survivor/health_system.py:50-66 | revive: a live entity is unchanged; a dead one comes back with `int(maxHp * pct)` hit points; a fraction in [0, 1] keeps the range |
| Health.Restored | survivor/health_system.py:77-82 | reset: full hit points and alive, other fields kept |
| Health.RestoredIdempotent | survivor/health_system.py:77-82 | a second reset changes nothing |
| Health.HpFraction | survivor/health_system.py:68-75 | get_hp_percentage is `currentHp / maxHp`, absent exactly where Python divides by zero, and in [0, 1] within the range |
| Health.DeadStaysDead | survivor/health_system.py:27-30 | from a dead state, any run of damage and heal calls leaves the entity dead and its maximum unchanged (reset and revive are the calls that bring it back) |
| Health.RangeKept | survivor/health_system.py:25 | any run of calls with non-negative amounts and fractions in [0, 1] keeps `0 <= currentHp <= maxHp` |
| Health.HealthSystem.constructor | survivor/health_system.py:2-13 | the fields are the fresh state; valid when `maxHp >= 0`; a caller leaving out `base_hp` passes `DefaultBaseHp` (100) and one leaving out `max_hp` passes None |
| Health.HealthSystem.TakeDamage | survivor/health_system.py:15-30 | the new fields are `Damaged` of the old; the result equals `isAlive`; the range invariant is kept for non-negative damage |
| Health.HealthSystem.Heal | survivor/health_system.py:32-48 | the new fields are `Healed` of the old and the result is `HealAmount`; the invariant is kept |
| Health.HealthSystem.Revive | survivor/health_system.py:50-66 | the new fields are `Revived` of the old; the result says whether the entity was dead; the fraction defaults to 1.0 as `hp_percentage` does |
| Health.HealthSystem.GetHpPercentage | survivor/health_system.py:68-75 | returns `HpFraction` of the fields and changes nothing |
| Health.HealthSystem.Reset | survivor/health_system.py:77-82 | the new fields are `Restored` of the old; the result is valid |
| Particles.Others | survivor/base_game.py:24 | the attributes written after `y`: every entry but `id`, in order, no more than there are attributes |
| Particles.JoinHeader | survivor/base_game.py:24 | the `id`, `kind`, `x`, `y` fields are joined as `id:I, kind:K, x:X, y:Y` |
| Particles.ToStrBare | survivor/base_game.py:25-26 | a particle without attributes is written `{id:0, kind:K, x:X, y:Y}` and a newline |
| Particles.ToStrIdOnly | survivor/base_game.py:22-24 | a particle whose only attribute is `id` is written with a bare trailing `, ` before the closing brace |
| Particles.IdOnlyParts | survivor/base_game.py:22-24 | with `id` the only attribute the header holds the id's text and the body ends in `, ` |
| Particles.Lines | survivor/base_game.py:64-68 | one line per particle |
| Particles.EncodeIsConcatOfLines | survivor/base_game.py:64-68 | encode is the concatenation of to_str over the particles in list order |
| Particles.PrintableAppend | survivor/base_game.py:64-68 | two lists to_str can write concatenate to one it can write |
| Particles.EncodeAppend | survivor/base_game.py:64-68 | encoding a concatenation is concatenating the encodings |
| Particles.LinesPermutation | survivor/base_game.py:70-76 | two lists with the same particles give the same multiset of lines |
| Particles.FirstOfKind | survivor/base_game.py:97-98 | get_particle: the first particle of the kind in the list (no earlier one has the kind), absent exactly when no particle has the kind |
| Particles.AllOfKind | survivor/base_game.py:100-101 | get_particles: only particles of the kind, no more than the list holds |
| Particles.AllOfKindMembers | survivor/base_game.py:100-101 | a particle is in the result exactly when it is in the list and has the kind |
| Particles.AllOfKindCounts | survivor/base_game.py:100-101 | each particle of the kind occurs as often in the result as in the list, any other not at all |
| Particles.AllOfKindAppend | survivor/base_game.py:100-101 | the filter distributes over concatenation, so the result keeps the list's order |
| Particles.AllOfKindCons | survivor/base_game.py:100-101 | a head of the kind leads the result, any other head is dropped |
| Particles.AllOfKindSingle | survivor/base_game.py:100-101 | a one-particle list gives itself when of the kind, nothing otherwise |
| Particles.FirstOfKindIsHead | survivor/base_game.py:97-101 | get_particle is the head of get_particles, or None when that list is empty |
| Base.EncodeLoop | survivor/base_game.py:64-68 | the accumulation loop yields exactly the encoding of the list |
| Base.ParseBlocksAt | survivor/base_game.py:81-93 | the block loop's result is characterised: particles parsed from a prefix of blocks, then the end or the first failing block's error |
| Base.BaseGame.constructor | survivor/base_game.py:30-36 | an empty particle list with the given capacity, valid for a capacity of 0 or more |
| Base.BaseGame.ClearParticles | survivor/base_game.py:44-45 | the list is emptied, the capacity kept and the invariant kept |
| Base.BaseGame.CreateParticle | survivor/base_game.py:47-51 | given room, the new particle is appended at the end, everything before it kept, and returned |
| Base.BaseGame.RemoveParticle | survivor/base_game.py:53-55 | given membership, the first occurrence goes, the rest keep their order, one fewer particle |
| Base.BaseGame.GetParticle | survivor/base_game.py:97-98 | the first particle of the kind in the list, None exactly when there is none |
| Base.BaseGame.GetParticles | survivor/base_game.py:100-101 | exactly the particles of the kind, each as often as in the list, in list order (the filter of a split list is the concatenation of the filters of its parts) |
| Base.BaseGame.Encode | survivor/base_game.py:64-68 | returns the encoding of the list and changes nothing |
| Base.BaseGame.ShuffleEncode | survivor/base_game.py:70-76 | encodes the shuffled copy, whose lines are a permutation of encode's; the list itself is unchanged |
| Base.BaseGame.Decode | survivor/base_game.py:78-95 | the list and the result are those of `DecodeSpec`: blocks parsed in order, stopped by an error, then sorted by id and re-encoded |
| Base.UserInputs | survivor/base_game.py:107-116 | five flags, flag i set exactly when its key is in `keys` |
| Base.Selected | survivor/base_game.py:118-130 | the elements whose flag is set, in order |
| Base.SelectedHas | survivor/base_game.py:118-130 | of distinct elements, one is selected exactly when its flag is set, and nothing else is |
| Base.SelectedFrom | survivor/base_game.py:118-130 | selection proceeds one flag at a time |
| Base.SelectedFive | survivor/base_game.py:118-130 | the five `if actions[i]: keys.append(...)` steps in order |
| Base.UserKeys | survivor/base_game.py:118-130 | get_user_keys: the names of the set flags among the first five, in the order left, right, up, down, space; IndexError (None) exactly for a list of fewer than five, the empty list included |
| Base.UserKeysNames | survivor/base_game.py:118-130 | each name is present exactly when its flag is set, and no other name is |
| Text.DigitChar | survivor/base_game.py:24 | a digit below 10 prints as a decimal digit character |
| Text.DigitValue | survivor/base_game.py:84 | a digit character reads back as the digit that prints it |
| Text.NatText | survivor/base_game.py:24 | `str()` of a non-negative int: non-empty, digits only |
| Text.IntText | survivor/base_game.py:24 | `str()` of an int: a token the pair scan of decode reads whole |
| Text.LeadingDigits | survivor/base_game.py:84 | the longest run of digits at the start |
| Text.ParseNumber | survivor/base_game.py:84 | float() of a whole-number literal succeeds only on a non-empty text |
| Text.FloatText | survivor/base_game.py:24 | repr() of a float with a whole value: a token the pair scan reads whole |
| Text.NatTextValue | survivor/base_game.py:24 | the digits `str()` prints read back as the number |
| Text.DigitsThenPoint | survivor/base_game.py:84 | digits, optionally followed by `.0`, parse as their value |
| Text.NoDigitNoNumber | survivor/base_game.py:84 | a text without a digit is not read as a number |
| Text.IntTextRoundTrip | survivor/base_game.py:84 | float(str(i)) == i and float(repr(float(i))) == i |
| Lists.IndexOf | survivor/base_game.py:55 | the index of the first occurrence |
| Lists.RemoveFirst | survivor/base_game.py:55 | `list.remove(x)` drops exactly the first occurrence and keeps the order of the rest |
| Lists.Map | survivor/base_game.py:66-67 | one result per element, in order |
| Lists.MapAppend | survivor/base_game.py:66-67 | mapping distributes over concatenation |
| Lists.MapPermutation | survivor/base_game.py:73-75 | mapping two permutations of a list gives permutations of the mapped list |
| Lists.LookupFinds | survivor/base_game.py:82 | a dictionary lookup succeeds exactly when the key is present, and then returns an entry's value |
| Lists.LookupFirst | survivor/base_game.py:82 | the lookup returns the value of the first entry under the key |
| Lists.Assign | survivor/base_game.py:90 | `d[k] = v` on a missing key appends the entry |
| Lists.AssignLookup | survivor/base_game.py:90 | after `d[k] = v`, `d[k]` is `v` and every other key reads as before |
| Lists.AssignKeys | survivor/base_game.py:90 | `d[k] = v` keeps the keys in place and distinct |
| Lists.DictFromPairs | survivor/base_game.py:82 | `dict(pairs)`: distinct keys, each holding the last value given for it |
| Lists.FirstKeyIndex | survivor/base_game.py:82 | the position of the first pair under a key: it holds the key and no earlier pair does |
| Lists.FirstKeyIndexIs | survivor/base_game.py:82 | a position holding the key with none before it is the first one |
| Lists.FirstKeyIndexSnoc | survivor/base_game.py:82 | appending a pair keeps every first position, and a new key's is the end |
| Lists.HasKeyAt | survivor/base_game.py:82 | the key of any pair is present |
| Lists.HasKeySnoc | survivor/base_game.py:82 | a key is present after appending a pair exactly when it was before or is the pair's |
| Lists.AssignHasKey | survivor/base_game.py:90 | after `d[k] = v` the keys are the old ones and `k` |
| Lists.DictFromPairsOrder | survivor/base_game.py:82 | `dict(pairs)` has exactly the keys of the pairs, in the order of their first appearance |
| Lists.DictFromDistinctPairs | survivor/base_game.py:82 | pairs with distinct keys become a dictionary of exactly those pairs, in order |
| Decoding.CloseIndex | survivor/base_game.py:79 | the lazy `.*?` stops at the first `}` with no newline before it, or finds none |
| Decoding.Blocks | survivor/base_game.py:79 | `re.findall(r'\{(.*?)\}')`: each block holds no `}` and no newline (a `{` may sit inside one) |
| Decoding.WordRun | survivor/base_game.py:82 | the longest run of `\w` characters at the start |
| Decoding.ValueRun | survivor/base_game.py:82 | the longest run of `[^\s,<>]` characters at the start |
| Decoding.Pairs | survivor/base_game.py:82 | every match of `(\w+):([^\s,<>]+)` is a word key and a value token |
| Decoding.Attributes | survivor/base_game.py:86-92 | the attributes built from the pairs leave out `kind`, `x` and `y` |
| Decoding.ParseBlockSpec | survivor/base_game.py:82-93 | a block fails on a missing `kind` (and on `x` or `y` missing or not a number); a parsed particle has the last `kind` and float `x`, `y` read from the text |
| Decoding.ParseBlocks | survivor/base_game.py:81-93 | one particle per block in order up to the first failing block, whose error is reported |
| Decoding.SortError | survivor/base_game.py:94 | sorted only succeeds when every particle has an id |
| Decoding.InsertPermutes | survivor/base_game.py:94 | inserting keeps every particle and adds exactly the new one (as multisets) |
| Decoding.SortByIdPermutes | survivor/base_game.py:94 | the sort is a permutation of its input (equal multisets) |
| Decoding.LessIsStrictOrder | survivor/base_game.py:94 | `<` on ids is irreflexive and transitive |
| Decoding.LessIsTotal | survivor/base_game.py:94 | ids of one type not ordered either way are equal |
| Decoding.SortErrorIff | survivor/base_game.py:94 | sorted raises exactly when an id is missing or ids mix numbers and strings |
| Decoding.SortByIdSorted | survivor/base_game.py:94 | the sort's output is ordered by id |
| Decoding.SortByIdOfSorted | survivor/base_game.py:94 | a list already ordered by id is left as it is |
| Decoding.SortByIdStable | survivor/base_game.py:94 | the sort is stable: particles of equal id keep their relative order |
| Decoding.DecodeSpec | survivor/base_game.py:78-95 | decode succeeds exactly when every block parses and the ids are present and of one type, and then the list is the parsed particles sorted by id and the result its encoding; a failing block raises its KeyError or ValueError with the particles before it kept; a missing id raises KeyError and mixed ids TypeError, the parsed particles kept unsorted |
| RoundTrip.Floated | survivor/base_game.py:90 | float() keeps a number a number and a string a string |
| RoundTrip.FloatedRest | survivor/base_game.py:86-92 | decode's view of the non-id attributes has no more entries than the original |
| RoundTrip.ValueTextParses | survivor/base_game.py:90 | a value to_str writes reads back as the value, with numbers as floats |
| RoundTrip.PairsHead | survivor/base_game.py:82 | a `key:value` followed by a comma or the end is one match |
| RoundTrip.PairsSkip | survivor/base_game.py:82 | the `, ` separator holds no match |
| RoundTrip.PairsJoin | survivor/base_game.py:82 | the pair scan over to_str's joined pairs gives back the pairs |
| RoundTrip.AttributesOfOthers | survivor/base_game.py:86-92 | reading back the written non-id attributes gives them, numbers as floats |
| RoundTrip.BodyPairs | survivor/base_game.py:24 | the pair scan over to_str's body finds exactly the pairs it wrote |
| RoundTrip.JoinedPairs | survivor/base_game.py:24 | header and attribute pairs joined by `, ` scan as both runs |
| RoundTrip.HeaderAttributes | survivor/base_game.py:24 | of the header only `id` becomes an attribute |
| RoundTrip.ParseBlockOfBody | survivor/base_game.py:82-93 | reading to_str's body back gives the particle, numbers as floats and the id first |
| RoundTrip.BodyClean | survivor/base_game.py:79 | to_str's body has no `}` and no newline, so the brace scan takes it whole |
| RoundTrip.BlocksLine | survivor/base_game.py:79 | one encoded line yields its body as one block |
| RoundTrip.NormalAll | survivor/base_game.py:86-93 | decode's view of each particle of a list |
| RoundTrip.ParseEncoded | survivor/base_game.py:81-93 | the block loop over encode's text rebuilds every particle, in order, without error |
| RoundTrip.DecodeEncode | survivor/base_game.py:64-95 | for every encodable list, decode(encode()) gives decode's view of the list sorted by id and returns that list's encoding when the ids are of one type; with mixed ids it raises TypeError and keeps the view unsorted |
| RoundTrip.DecodeEncodeSorted | survivor/base_game.py:64-95 | a list whose view is already in id order decodes to exactly that view, and the result is its encoding |
| RoundTrip.FloatedRestIdempotent | survivor/base_game.py:90 | reading numbers as floats twice is reading them once |
| RoundTrip.NormalIsFixpoint | survivor/base_game.py:78-95 | decode's view of a particle is encodable and its own view |
| RoundTrip.DecodeOfNormalIsFixpoint | survivor/base_game.py:78-95 | decoding the text decode returns changes nothing: decode then encode reaches a fixpoint |
| RoundTrip.PermutedFixpoints | survivor/base_game.py:94 | reordering particles that are their own view with ids of one type keeps them encodable, of one type and their own view |
| Catalog.WeaponNamesAgree | survivor/games/survivor.py:85-306 | the list of names is the catalog's names in order |
| Catalog.Find | survivor/games/survivor.py:1078-1079 | the catalog entry with the name, absent exactly when no entry has it |
| Catalog.FindIn | survivor/games/survivor.py:1078-1079 | `next(...)`: the first entry of the list with the name, or None when there is none |
| Catalog.ShapeOf | survivor/games/survivor.py:1099 | `w.get("shape", "circle")` |
| Catalog.SumFirstGrows | survivor/games/survivor.py:1081-1083 | prefix sums of a statistic that only rises are non-negative and grow with the prefix |
| Catalog.SumFirstShrinks | survivor/games/survivor.py:1562-1564 | prefix sums of a statistic that only falls are non-positive and shrink with the prefix |
| Catalog.CatalogDamage | survivor/games/survivor.py:1081-1083 | spawn_weapon's damage is the base plus the prefix sum of the damage deltas when that is positive, and 1 otherwise |
| Catalog.HomingAmount | survivor/games/survivor.py:1139-1143 | the missile count is the base plus the prefix sum, floored to 1 |
| Catalog.RearmCooldown | survivor/games/survivor.py:1562-1564 | the re-arm cooldown is the base plus the prefix sum of the cooldown deltas, never below 5 |
| Catalog.WhipFacts | survivor/games/survivor.py:87-113 | the Whip's upgrade table never lowers damage, count, amount or pierce, never raises the cooldown, and leaves it at least 22 frames |
| Catalog.MagicWandFacts | survivor/games/survivor.py:114-145 | the same for the Magic Wand |
| Catalog.KnifeFacts | survivor/games/survivor.py:146-172 | the same for the Knife |
| Catalog.AxeFacts | survivor/games/survivor.py:173-199 | the same for the Axe |
| Catalog.CrossFacts | survivor/games/survivor.py:200-226 | the same for the Cross |
| Catalog.KingBibleFacts | survivor/games/survivor.py:227-253 | the same for the King Bible |
| Catalog.FireWandFacts | survivor/games/survivor.py:254-279 | the same for the Fire Wand |
| Catalog.GarlicFacts | survivor/games/survivor.py:280-305 | the same for Garlic |
| Catalog.CatalogFacts | survivor/games/survivor.py:85-306 | every catalog weapon's damage, count, amount and pierce only rise, its cooldown only falls, and never below 22 frames |
| Catalog.RearmNeverClamped | survivor/games/survivor.py:1562-1564 | the floor of 5 never binds: a catalog weapon re-arms to between 22 frames and its base cooldown |
| Catalog.CatalogDamageGrows | survivor/games/survivor.py:1081-1083 | the floor of 1 never binds for the catalog, and a higher level never deals less damage |
| Catalog.ShotCountGrows | survivor/games/survivor.py:1541 | a weapon fires at least one shot, and never fewer at a higher level |
| Catalog.HomingCounts | survivor/games/survivor.py:1139-1146 | a homing missile pierces at least `pierce + 1` times and its amount is never floored |
| Catalog.BibleLevel | survivor/games/survivor.py:1273-1278 | the row of KING_BIBLE_LEVELS for a level, the last row past the table |
| Catalog.KingBibleDamageAgrees | survivor/games/survivor.py:2418-2424 | get_kingbible_damage (10, 20, 30 by level) agrees with the level table's damage column at every level |
| Catalog.OrbitRadius | survivor/games/survivor.py:1273-1278 | the orbit radius is between 60 and 90 |
| Catalog.BibleAmount | survivor/games/survivor.py:1273-1278 | a level's book count is between 1 and 4 |
| Catalog.ArcAngleSpread | survivor/games/survivor.py:1216 | axes leave between -60 and 60 degrees, in order, and at distinct angles while there are at most 121 |
| Catalog.FanAngleSpread | survivor/games/survivor.py:1323 | fan shots leave between -30 and 30 degrees, in order, and at distinct angles while there are at most 61 |
| Catalog.OrbitAngleSpread | survivor/games/survivor.py:1288 | books sit at distinct angles in [0, 360) while there are at most 360 |
| Entities.Clamp | survivor/games/survivor.py:1055-1056 | `max(lo, min(hi, v))` lies in [lo, hi] and is `v` when `v` already does |
| Entities.MoveCoord | survivor/games/survivor.py:1460-1461 | a moved coordinate stays in [9, 1015] and is the truncation of the unclamped one when that lies inside |
| Entities.Moved | survivor/games/survivor.py:1443-1461 | the player stays at least `PLAYER_SIZE // 2` inside the field on both axes |
| Entities.StraightMove | survivor/games/survivor.py:1443-1461 | without a vertical step the player moves by the full speed horizontally, stopped at the edges, and stays put vertically |
| Entities.DiagonalMove | survivor/games/survivor.py:1456-1461 | a diagonal move goes 3 pixels right or down but 4 left or up, `int()` truncating the 3.5355 step |
| Entities.DebugButtonsApart | survivor/games/survivor.py:761-793 | no click lands on two debug buttons |
| Entities.SquaredDistance | survivor/games/survivor.py:805-833 | the squared distance is non-negative |
| Entities.CollisionIsDistance | survivor/games/survivor.py:805-833 | check_collision holds exactly when neither particle is dying, both are on the field and their distance is strictly below the mean of the sizes |
| Entities.CollisionSymmetric | survivor/games/survivor.py:805-833 | for particles that are neither books nor auras the test is symmetric |
| Entities.CollisionGrows | survivor/games/survivor.py:805-833 | a larger second size never loses a collision |
| Entities.SamePointCollides | survivor/games/survivor.py:805-833 | two live particles at the same point on the field collide exactly when the sizes sum to more than 0 |
| Entities.Pad2 | survivor/games/survivor.py:697-702 | `{:02d}`: at least two digits, reading back as the number |
| Entities.FormatTime | survivor/games/survivor.py:697-702 | `MM:SS` with a colon before the last two characters |
| Entities.FormatTimeReads | survivor/games/survivor.py:697-702 | the minutes and seconds read back give the whole seconds elapsed, with seconds below 60 |
| Rules.RemoveKey | survivor/games/survivor.py:774 | `weapons.pop(name)` removes entries only |
| Rules.RemoveKeyLookup | survivor/games/survivor.py:774 | after the pop `name` is absent and every other key reads as before |
| Rules.SetLevel | survivor/games/survivor.py:893-906 | `weapons[name] = level` sets that level and no other |
| Rules.DebugDecreaseLevels | survivor/games/survivor.py:764-777 | "-" lowers the weapon by one down to 0 and touches no other weapon |
| Rules.DebugIncreaseLevels | survivor/games/survivor.py:779-793 | "+" raises the weapon by one up to its maximum and touches no other weapon |
| Rules.DebugIncreaseThenDecrease | survivor/games/survivor.py:764-793 | "+" then "-" restores every level of a weapon below its maximum |
| Rules.DebugKeepsLevelsValid | survivor/games/survivor.py:764-793 | both debug buttons keep every level within [0, maximum] |
| Rules.Upgradable | survivor/games/survivor.py:854-862 | no more upgrades than catalog weapons |
| Rules.UpgradableMembers | survivor/games/survivor.py:854-862 | an upgrade is offered exactly for a catalog weapon owned below its maximum, at its current level |
| Rules.Unowned | survivor/games/survivor.py:864-871 | no more new weapons than catalog weapons |
| Rules.UnownedMembers | survivor/games/survivor.py:864-871 | a new weapon is offered exactly for a catalog weapon missing from the dictionary |
| Rules.UpgradeOptions | survivor/games/survivor.py:854-880 | the candidate list always ends with the damage and the attack-speed options |
| Rules.UpgradeOptionsExact | survivor/games/survivor.py:854-880 | the menu offers exactly the upgrades of owned weapons below their maximum and, while fewer than six are held, the missing weapons |
| Rules.OfferedUpgradeExact | survivor/games/survivor.py:854-862 | an offered upgrade names a catalog weapon below its maximum at its current level |
| Rules.UpgradableExact | survivor/games/survivor.py:854-862 | the same over any table whose entries Find returns |
| Rules.OfferedNewExact | survivor/games/survivor.py:864-871 | an offered new weapon is a catalog weapon missing from a dictionary of fewer than six |
| Rules.UnownedExact | survivor/games/survivor.py:864-871 | the same over any table whose entries Find returns |
| Rules.CatalogFindsAll | survivor/games/survivor.py:85-306 | Find returns every catalog entry for its own name |
| Rules.UniqueNames | survivor/games/survivor.py:85-306 | a catalog weapon is the entry Find returns for its name |
| Rules.NamesDiffer | survivor/games/survivor.py:85-306 | the catalog's names are pairwise distinct |
| Rules.OfferedUpgradeRaisesOne | survivor/games/survivor.py:885-906 | taking an offered weapon option raises exactly that weapon by one level (a new one appended at 1) and keeps every level valid; damage and speed options leave levels alone |
| Rules.UpgradeWeaponRaises | survivor/games/survivor.py:893-899 | an upgrade sets the weapon to one above its level and keeps levels valid |
| Rules.NewWeaponRaises | survivor/games/survivor.py:901-906 | a new weapon is appended at level 1 and keeps levels valid |
| Rules.RaiseOne | survivor/games/survivor.py:893-906 | raising one weapon by one within its maximum keeps every level valid and changes no other |
| Rules.MaxLevelIsEight | survivor/games/survivor.py:897 | every catalog weapon, and the default for any other name, tops out at 8 |
| Rules.GainXpKeeps | survivor/games/survivor.py:2005-2011 | a pickup adds 10 experience, levels up exactly at the threshold, and keeps `0 <= xp < level * 50` |
| Rules.AgeCooldowns | survivor/games/survivor.py:1676-1683 | positive hit cooldowns drop by one and the others are deleted |
| Rules.AgeTimesEntry | survivor/games/survivor.py:1676-1683 | after `n` frames an entry remains exactly when it started at `n` or more, lowered by `n` |
| Rules.BookRehitDelay | survivor/games/survivor.py:2392-2397 | after a hit the book ignores that enemy for the next 29 frames and may hit it from the 30th on |
| Rules.Fade | survivor/games/survivor.py:2043-2058 | the fade pass never adds an enemy |
| Rules.FadeLifetime | survivor/games/survivor.py:2043-2058 | a dying enemy with timer `t` stays `t` more frames, counting down, and goes on the frame after |
| Rules.KilledEnemyLasts | survivor/games/survivor.py:2438-2440 | a killed enemy disappears on the 31st fade pass after its death |
| Rules.FadeKeepsLiving | survivor/games/survivor.py:2043-2058 | the fade keeps every enemy that is not dying, in order |
| Rules.TickWeapon | survivor/games/survivor.py:1652-1709 | a tick keeps a weapon's id, name and damage |
| Rules.WhipLifetime | survivor/games/survivor.py:1653-1656 | a slash with whip timer `t >= 1` counts down by one per tick and is marked for removal exactly on its `t`-th tick |
| Rules.DurationLifetime | survivor/games/survivor.py:1659-1662 | a weapon with duration `d >= 1` is marked for removal exactly on its `d`-th tick |
| Rules.BoomerangTurnsOnce | survivor/games/survivor.py:1665-1671 | a boomerang turns back on the tick its timer reaches 0, once, and keeps going back |
| Rules.UntimedNeverExpires | survivor/games/survivor.py:1639-1709 | a weapon without whip timer, duration or orbit is never marked by the timer pass |
| Rules.UntimedStays | survivor/games/survivor.py:1639-1709 | such a weapon gains no timer |
| Rules.PierceLifetime | survivor/games/survivor.py:1775-1780 | a missile with pierce count `p >= 1` expires exactly on its `p`-th hit |
| Rules.Nearest | survivor/games/survivor.py:1148-1156 | `min(available, key=squared distance)`: an available enemy at the least distance, the first of those, and None exactly when none is available |
| Rules.AtLeastOne | survivor/games/survivor.py:2402-2403 | damage of 0 or less becomes 1; positive damage is kept |
| Rules.SlashPoint | survivor/games/survivor.py:1084-1086 | the spawn point is 50 pixels right of the player at angle 0 and 50 left at 180, level with it, except that `int()` lifts a `y` in [-64, -1] by one at 180 degrees |
| Rules.CatalogShot | survivor/games/survivor.py:1077-1118 | spawn_weapon makes a weapon exactly for a catalog name at a level above 0, with that name, level and angle, the catalog's damage (at least 1) and shape, at the spawn point, and without timers |
| Rules.SlashesFlank | survivor/games/survivor.py:1543-1545 | the Whip's even shots land 50 pixels right of the player and odd ones 50 left, so a pair is 100 pixels apart around it |
| Rules.StraightShot | survivor/games/survivor.py:1180-1211 | one knife at angle 0 lasting 60 frames with damage `7 + 2 (level - 1)`, for a level above 0 |
| Rules.ArcShot | survivor/games/survivor.py:1213-1239 | axe `i` at the arc's angle with damage `12 + 3 (level - 1)`, for a level above 0 |
| Rules.OrbitBook | survivor/games/survivor.py:1270-1317 | a book of the level's damage, lasting 180 frames, bound to the player, for a level above 0 |
| Rules.FanShot | survivor/games/survivor.py:1319-1346 | shot `i` at the fan's angle with damage `15 + 3 (level - 1)`, for a level above 0 |
| Rules.AuraShot | survivor/games/survivor.py:1348-1371 | an aura of radius `60 + 10 (level - 1)` and damage `5 + 2 (level - 1)`, for a level above 0 |
| Rules.WhipShot | survivor/games/survivor.py:1373-1396 | a slash lasting 5 frames with damage `10 + 3 (level - 1)`, for a level above 0 |
| Sim.FreshId | survivor/games/survivor.py:1068-1075 | in a valid world `next_id` belongs to no particle |
| Sim.Clamped | survivor/games/survivor.py:1055-1056 | a spawn point lies within the screen widened by the entity's size |
| Sim.SpawnEnemyW | survivor/games/survivor.py:1046-1075 | spawn_enemy adds one regular enemy with the next id exactly when there is a player and fewer than 60 enemies; the invariant is kept |
| Sim.SpawnEliteW | survivor/games/survivor.py:1014-1044 | spawn_elite_enemy adds one elite with the next id whenever there is a player, whatever the count |
| Sim.SpawnEnemiesW | survivor/games/survivor.py:994-995 | `k` spawn_enemy calls bring the count to `min(count + k, 60)`, each enemy with the next id |
| Sim.SpawnWaveW | survivor/games/survivor.py:973-1012 | a wave touches only the enemies and the wave counters |
| Sim.WaveEndW | survivor/games/survivor.py:997-1012 | the end of a wave touches only the enemies and the wave counters |
| Sim.WaveEndValid | survivor/games/survivor.py:997-1012 | the end of a wave, with its elite, keeps the invariant when at most 60 enemies were out |
| Sim.SpawnWaveCounts | survivor/games/survivor.py:973-1012 | at 60 enemies nothing changes; below, the enemies reach the wave minimum (or one more), then an elite, possibly 61; the minimum becomes `min(30 + wave, 60)`, the timer 0 and the wave one higher |
| Sim.TopUpW | survivor/games/survivor.py:1428-1440 | the top-up touches only the enemies and the spawn timer |
| Sim.SpawnTimerW | survivor/games/survivor.py:1435-1440 | a due timer spawns one enemy below the cap (with a player) and is reset to the delay; otherwise only the timer counts down by one |
| Sim.TopUpCounts | survivor/games/survivor.py:1428-1440 | below the minimum the enemies reach it exactly, plus one when the spawn timer has run out; at the minimum nothing changes |
| Sim.WaveTickW | survivor/games/survivor.py:1422-1426 | the wave tick touches only the enemies and the wave counters |
| Sim.WaveTickTimer | survivor/games/survivor.py:1422-1426 | a wave comes exactly when the timer reaches 3600 below the cap, and the timer then restarts from 0 |
| Sim.WaveTickValid | survivor/games/survivor.py:1422-1426 | the wave tick keeps the invariant |
| Sim.DamageTextW | survivor/games/survivor.py:2363-2385 | no text for an amount of 0 or less; otherwise the amount's digits for 60 frames with the next id |
| Sim.SpawnXpW | survivor/games/survivor.py:1120-1133 | an orb with the next id at the given point |
| Sim.EnemyDeathW | survivor/games/survivor.py:2426-2440 | a death keeps the weapons, the number of enemies, the player, timer, mode and progress, and the invariant |
| Sim.HitDamage | survivor/games/survivor.py:2392-2403 | a book deals its level's damage, any other weapon at least 1 |
| Sim.WeaponHitW | survivor/games/survivor.py:2387-2416 | apply_damage from a weapon keeps the invariant and every weapon's id, and changes the weapons only for a book |
| Sim.MarkBook | survivor/games/survivor.py:2397 | a book's cooldown for the enemy becomes 30 and nothing else changes |
| Sim.StrikeW | survivor/games/survivor.py:2404-2414 | the health part of a hit keeps the weapons, the number of enemies, the player, timer, mode and progress, and the invariant |
| Sim.CoolingBookDoesNothing | survivor/games/survivor.py:2392-2396 | a book still cooling for the enemy returns alive and changes nothing |
| Sim.WeaponHitDamages | survivor/games/survivor.py:2387-2416 | a hit takes `max(1, damage)` (a book's level damage) down to 0; the enemy is reported dead exactly when its health says so, and then starts dying with a 30-frame timer |
| Sim.EnemyDeathScores | survivor/games/survivor.py:2426-2440 | a death adds 10 points for a regular enemy and 30 for an elite, drops an orb exactly when elite or rolled, and marks only that enemy dying |
| Sim.Struck | survivor/games/survivor.py:1914-1917 | apply_damage on the player changes only its health; a player without health is untouched and alive |
| Sim.PlayerHitW | survivor/games/survivor.py:1914-1944 | an enemy's hit on the player ends the game exactly when it kills, keeps the enemies, the next id and the invariant |
| Sim.ContactsUpTo | survivor/games/survivor.py:1792-1944 | the player's side of one kind's pass of the enemy loop changes only the player's health, and nothing once the game is over |
| Sim.ContactsW | survivor/games/survivor.py:1792-1944 | the regular enemies' pass then the elites': only the player's health and the mode change, the mode only to game over, and the invariant is kept |
| Sim.ContactsStopped | survivor/games/survivor.py:1941-1944 | after the hit that ends the game, the rest of the loop changes nothing (`return` from step) |
| Sim.Blows | survivor/games/survivor.py:1914-1917 | every blow of the pass deals at least 1 |
| Sim.HurtMore | survivor/health_system.py:15-30 | one more take_damage after blows that killed changes nothing, and after blows that did not is take_damage of their sum |
| Sim.ContactPassTurn | survivor/games/survivor.py:1914-1944 | one turn of the pass as the fields run it agrees with `ContactsUpTo` |
| Sim.ContactsUpToHurts | survivor/games/survivor.py:1792-1944 | the pass leaves the health after the sum of the blows of every enemy that strikes, and the game over exactly when that kills |
| Sim.ContactsUpToHurtsStep | survivor/games/survivor.py:1914-1944 | the step of that induction, one enemy at a time |
| Sim.ContactsUpToNoHealth | survivor/games/survivor.py:1916-1944 | a player without health is left alone by the pass |
| Sim.ContactsHurt | survivor/games/survivor.py:1792-1944 | the whole loop in closed form: a living player's health takes the total of every striking enemy's blow, regular enemies first, the game ends exactly when that kills, and nothing else in the world changes; a player without health is left alone |
| Sim.RespawnOneW | survivor/games/survivor.py:1583-1605 | one weapon of the 900-frame respawn adds only weapons and ids, and nothing for a weapon the player does not own; the invariant is kept |
| Sim.RespawnAllW | survivor/games/survivor.py:1573-1605 | the respawn over the catalog adds only weapons and ids and keeps the invariant |
| Sim.BibleRespawnW | survivor/games/survivor.py:1607-1636 | the 600-frame respawn changes the player only in its weapon levels, and otherwise only the weapons and ids |
| Sim.BibleRespawnLevels | survivor/games/survivor.py:1612-1618 | the King Bible goes to level 1 when it was missing or at 0 or below and keeps its level otherwise; no other level changes; the invariant is kept |
| Sim.RespawnW | survivor/games/survivor.py:1573-1636 | the timed respawns change only the player's levels, the weapons and ids, and nothing on a frame that is neither 1 modulo 900 nor 1 modulo 600 |
| Sim.RespawnLevels | survivor/games/survivor.py:1573-1636 | the respawns keep the invariant; on a frame that is 1 modulo 600 the player holds the King Bible afterwards; no other weapon's level changes |
| Sim.Kept | survivor/games/survivor.py:2002-2016 | the orbs left are orbs the player does not touch, in order |
| Sim.KeptExactly | survivor/games/survivor.py:2002-2016 | an orb stays exactly when the player does not touch it |
| Sim.GainsKeep | survivor/games/survivor.py:2002-2016 | the pass adds 10 experience per orb taken, keeps the levelling invariant, and levels up exactly when the menu opens |
| Sim.PickupValid | survivor/games/survivor.py:2002-2016 | the pickup pass keeps the invariant |
| Sim.TextsTick | survivor/games/survivor.py:1497-1514 | the text pass never adds a text |
| Sim.TextsTickMembers | survivor/games/survivor.py:1497-1514 | the texts left are exactly those whose timer was above 1, each one lower |
| Sim.TextsTickBelow | survivor/games/survivor.py:1497-1514 | the text pass keeps ids below any bound they were below |
| Sim.TextLifetime | survivor/games/survivor.py:1497-1514 | a damage text lives exactly 60 frames |
| Sim.BlinkTick | survivor/games/survivor.py:1479-1484 | only the blink timer changes, and only down toward 0 |
| Sim.FadeW | survivor/games/survivor.py:2043-2058 | the fade keeps the invariant and leaves the player, the timer, the mode and the progress as they were |
| Sim.FadeSubset | survivor/games/survivor.py:2043-2058 | every enemy left by the fade was there before |
| Sim.Ticked | survivor/games/survivor.py:1639-1709 | every weapon after one frame of its timers, in order |
| Sim.TimerDoomed | survivor/games/survivor.py:1639-1709 | the timer pass's removal marks, one per weapon |
| Sim.FirstOf | survivor/games/survivor.py:1764-1765 | the first enemy of the kind the missile collides with, and none before it collides |
| Sim.StrikeKindW | survivor/games/survivor.py:1763-1781 | one kind's turn for missile `i` changes only that missile and its mark among the weapons |
| Sim.PierceAt | survivor/games/survivor.py:1761-1781 | the pierce step changes only weapon `i`, and nothing at all when it is not a Magic Wand |
| Sim.PierceUpTo | survivor/games/survivor.py:1761-1781 | the pierce pass over the first `n` weapons leaves the rest and all weapon ids as they were |
| Sim.PierceKeepsOthers | survivor/games/survivor.py:1761-1781 | the pass leaves every weapon other than a Magic Wand missile, and its mark, as they were |
| Sim.Survivors | survivor/games/survivor.py:1784-1786 | the flush keeps weapons only from the list |
| Sim.SurvivorsExactly | survivor/games/survivor.py:1784-1786 | a weapon survives exactly when it is not marked |
| Sim.WeaponPassW | survivor/games/survivor.py:1639-1786 | the weapon pass leaves the player, the timer, the mode and the progress as they were |
| Sim.WeaponPassValid | survivor/games/survivor.py:1639-1786 | the weapon pass keeps the invariant |
| Sim.OtherWeaponsOnlyTick | survivor/games/survivor.py:1639-1786 | a weapon other than a Magic Wand missile leaves the pass as its timers made it, exactly when not marked |
| Sim.AddShotW | survivor/games/survivor.py:1088-1118 | a spawned weapon is appended with the next id, which is then incremented |
| Sim.Unbound | survivor/games/survivor.py:1279-1287 | the removal keeps only weapons from the list that are not bound to the player |
| Sim.BookW | survivor/games/survivor.py:1270-1317 | a book spawn changes only the weapons and the next id |
| Sim.BooksW | survivor/games/survivor.py:1529-1539 | a group spawn changes only the weapons and the next id |
| Sim.BookCounts | survivor/games/survivor.py:1279-1317 | book 0 leaves the player exactly one book; each later book adds one |
| Sim.OneGroup | survivor/games/survivor.py:1279-1317 | after a group of `n` books the player has exactly `n`: one group per player |
| Sim.Ordered | survivor/games/survivor.py:1148 | the candidates are exactly the enemies, as many as there are |
| Sim.OfKind | survivor/games/survivor.py:1148 | only enemies of the kind, all from the list |
| Sim.Greedy | survivor/games/survivor.py:1148-1156 | one target, or none, per missile |
| Sim.GreedyNext | survivor/games/survivor.py:1148-1156 | the loop builds the greedy targets one at a time |
| Sim.UsedIdsAppend | survivor/games/survivor.py:1152-1156 | each target's id joins the used set |
| Sim.GreedyDistinct | survivor/games/survivor.py:1148-1156 | no two missiles take the same enemy |
| Sim.GreedyNearest | survivor/games/survivor.py:1148-1156 | each missile takes the nearest enemy not taken before it, and has none only when all are taken |
| Sim.MissilesW | survivor/games/survivor.py:1135-1178 | `n` missiles appended with consecutive ids |
| Sim.HomingW | survivor/games/survivor.py:1135-1178 | spawn_homing_missile changes only the weapons and the next id |
| Sim.ShotW | survivor/games/survivor.py:1541-1561 | a shot changes only the weapons and the next id |
| Sim.SlashBesidePlayer | survivor/games/survivor.py:1543-1545 | a Whip shot of the cooldown loop is appended after the other weapons, 50 pixels right of the player for even `i` and left for odd, level with it |
| Sim.ShotsW | survivor/games/survivor.py:1541-1561 | the shot loop changes only the weapons and the next id |
| Sim.LaunchW | survivor/games/survivor.py:1529-1561 | a firing changes only the weapons and the next id |
| Sim.FireOneW | survivor/games/survivor.py:1517-1566 | one weapon's turn changes only the player's cooldowns, the weapons and the next id |
| Sim.FireAllW | survivor/games/survivor.py:1517-1566 | the cooldown loop changes only the player's cooldowns, the weapons and the next id |
| Sim.FireOneCooldown | survivor/games/survivor.py:1517-1566 | an owned weapon at cooldown 0 or less re-arms to the catalog cooldown, otherwise counts down by 1; unowned weapons and other cooldowns are untouched |
| Sim.FireAllCooldowns | survivor/games/survivor.py:1517-1566 | after the loop each owned weapon's cooldown is re-armed (at least 22) or one lower, the King Bible's 180 overridden; level-0 weapons untouched |
| Sim.Quicker | survivor/games/survivor.py:914-918 | `max(5, c * 0.9)`: at least 5, never above the old value or 5 |
| Sim.SpeedUp | survivor/games/survivor.py:914-918 | the attack-speed upgrade keeps the set of cooldown entries |
| Sim.SpeedUpOnce | survivor/games/survivor.py:914-918 | each held weapon's cooldown is scaled once and every other cooldown kept |
| Sim.Harder | survivor/games/survivor.py:910-913 | every live weapon projectile hits one harder |
| Sim.ApplyUpgradeW | survivor/games/survivor.py:885-919 | nothing without a player; otherwise only the player and the weapons change, and the invariant is kept |
| Sim.ApplyOfferedWeapon | survivor/games/survivor.py:885-906 | an offered weapon option raises exactly that weapon by one, within bounds, and changes nothing else |
| Sim.ApplyDamageUp | survivor/games/survivor.py:910-913 | the damage option adds one to every live projectile and changes nothing else |
| Sim.ApplySpeedUp | survivor/games/survivor.py:914-918 | the speed option scales each held weapon's cooldown, never below 5 and never up, and changes nothing else |
| Sim.ChooseUpgradeW | survivor/games/survivor.py:720-734 | a click on option `i` of the open menu resumes play and applies that option; otherwise nothing happens |
| Sim.DebugClickW | survivor/games/survivor.py:748-796 | a toolbar click changes only the player's weapon levels |
| Sim.DebugLevelsOnly | survivor/games/survivor.py:748-796 | the button loop changes levels only for the weapon whose button was clicked |
| Sim.DebugLevelsMiss | survivor/games/survivor.py:748-796 | a click on no button changes nothing |
| Sim.DebugClickMinus | survivor/games/survivor.py:764-777 | a click on weapon `i`'s "-" lowers it by one down to 0 and no other; levels stay valid |
| Sim.DebugClickPlus | survivor/games/survivor.py:779-793 | a click on weapon `i`'s "+" raises it by one up to 8 and no other; levels stay valid |
| Sim.Walk | survivor/games/survivor.py:1443-1461 | with keys given only the player's position changes, to `Moved`; without them nothing moves |
| Sim.Blinked | survivor/games/survivor.py:1479-1484 | the blink pass over every enemy, in order |
| Sim.LatePierceW | survivor/games/survivor.py:2108-2128 | the late Magic Wand pass keeps the invariant and the number of weapons, and leaves the player, the timer, the mode and the progress as they were |
| Sim.FrameStartW | survivor/games/survivor.py:1422-1514 | the start of a frame changes the player only by its move, and not the timer, mode or progress |
| Sim.FrameStartValid | survivor/games/survivor.py:1422-1514 | the start of a frame keeps the invariant |
| Sim.StepW | survivor/games/survivor.py:1398-2128 | nothing outside play; in play the frame is counted, the game ends without a player, and otherwise play goes on, the menu opens or an enemy's hit ends the game |
| Sim.PlayW | survivor/games/survivor.py:1422-2128 | after a frame with a player there is still a player, the timer is unchanged, and the mode is unchanged, the menu or game over |
| Sim.StepValid | survivor/games/survivor.py:1398-2128 | every frame keeps the world's invariant |
| Sim.CountFrame | survivor/games/survivor.py:1408 | `game_timer += 1` keeps the invariant |
| Sim.PlayValid | survivor/games/survivor.py:1422-2128 | a frame with a player keeps the invariant |
| Survivor.StartingLevelsRead | survivor/games/survivor.py:660-666 | create_player's dictionary holds the King Bible at 1, each catalog name met so far at 0, and nothing else |
| Survivor.NewPlayerLevels | survivor/games/survivor.py:655-684 | a new player holds the King Bible at 1 and every other catalog weapon at 0, with valid levels |
| Survivor.StartingLevelsSize | survivor/games/survivor.py:660-666 | each catalog name adds one entry, except the King Bible, which is already there |
| Survivor.NewPlayerMenu | survivor/games/survivor.py:835-883 | a new player's menu offers only the King Bible upgrade, damage and attack speed: the dictionary of eight names blocks new weapons |
| Survivor.KingBibleOnlyMenu | survivor/games/survivor.py:854-880 | a dictionary of six or more in which only the King Bible is above 0 offers exactly those three options |
| Survivor.ResetCounts | survivor/games/survivor.py:686-695 | a reset gives a valid game in play with player id 0, the starting weapons, score 0, 31 enemies and wave counter 2 |
| Survivor.Game.constructor | survivor/games/survivor.py:332-374 | the fields are the initial world, which is valid |
| Survivor.Game.CreatePlayer | survivor/games/survivor.py:655-684 | the fields become the world with a new player |
| Survivor.Game.ClearParticles | survivor/base_game.py:44-45 | no player and no other particle remain; nothing else changes |
| Survivor.Game.InitializeGame | survivor/games/survivor.py:626-653 | the fields become `InitializeW` of the old world |
| Survivor.Game.StartPlay | survivor/games/survivor.py:626-653 | the player, the first wave's counters and the first wave |
| Survivor.Game.RestartScore | survivor/games/survivor.py:686-695 | score 0, level 1, no experience, 50 to the next level |
| Survivor.Game.ResetGame | survivor/games/survivor.py:686-695 | the fields become `ResetW` of the old world |
| Survivor.Game.SpawnEnemy | survivor/games/survivor.py:1046-1075 | the fields become `SpawnEnemyW` of the old world |
| Survivor.Game.SpawnEliteEnemy | survivor/games/survivor.py:1014-1044 | the fields become `SpawnEliteW` of the old world |
| Survivor.Game.SpawnEnemies | survivor/games/survivor.py:994-995 | the loop's result is `SpawnEnemiesW` |
| Survivor.Game.SpawnEnemyWave | survivor/games/survivor.py:973-1012 | the fields become `SpawnWaveW` of the old world |
| Survivor.Game.EndWave | survivor/games/survivor.py:997-1012 | the fields become `WaveEndW` of the old world |
| Survivor.Game.TopUp | survivor/games/survivor.py:1428-1440 | the fields become `TopUpW` of the old world |
| Survivor.Game.SpawnTimer | survivor/games/survivor.py:1435-1440 | the fields become `SpawnTimerW` of the old world |
| Survivor.Game.WaveTick | survivor/games/survivor.py:1422-1426 | the fields become `WaveTickW` of the old world |
| Survivor.Game.AddShot | survivor/games/survivor.py:1088-1118 | the fields become `AddShotW` of the old world |
| Survivor.Game.RemoveBooks | survivor/games/survivor.py:1279-1287 | the weapons become those not bound to the player |
| Survivor.Game.SpawnOrbitingBook | survivor/games/survivor.py:1270-1317 | the fields become `BookW` of the old world |
| Survivor.Game.SpawnBooks | survivor/games/survivor.py:1529-1539 | the fields become `BooksW` of the old world |
| Survivor.Game.SpawnHomingMissile | survivor/games/survivor.py:1135-1178 | the fields become `HomingW` of the old world |
| Survivor.Game.Missiles | survivor/games/survivor.py:1148-1178 | the loop appends the missiles aimed at the greedy targets |
| Survivor.Game.Missile | survivor/games/survivor.py:1158-1177 | one turn of the missile loop |
| Survivor.Game.Shot | survivor/games/survivor.py:1542-1561 | the fields become `ShotW` of the old world |
| Survivor.Game.Shots | survivor/games/survivor.py:1541-1561 | the loop's result is `ShotsW` |
| Survivor.Game.NextShot | survivor/games/survivor.py:1541-1561 | one turn of the shot loop |
| Survivor.Game.Launch | survivor/games/survivor.py:1529-1561 | the fields become `LaunchW` of the old world |
| Survivor.Game.FireOne | survivor/games/survivor.py:1518-1566 | the fields become `FireOneW` of the old world |
| Survivor.Game.FireWeapons | survivor/games/survivor.py:1516-1566 | the loop's result is `FireAllW` over the whole catalog |
| Survivor.Game.NextWeapon | survivor/games/survivor.py:1518-1566 | one turn of the cooldown loop |
| Survivor.Game.SpawnDamageText | survivor/games/survivor.py:2363-2385 | the fields become `DamageTextW` of the old world |
| Survivor.Game.SpawnXp | survivor/games/survivor.py:1120-1133 | the fields become `SpawnXpW` of the old world |
| Survivor.Game.OnEnemyDeath | survivor/games/survivor.py:2426-2440 | the fields become `EnemyDeathW` of the old world |
| Survivor.Game.Strike | survivor/games/survivor.py:2404-2414 | the fields and result are `StrikeW` of the old world |
| Survivor.Game.ApplyDamage | survivor/games/survivor.py:2387-2416 | the fields and result are `WeaponHitW` of the old world |
| Survivor.Game.PlayerHit | survivor/games/survivor.py:1914-1944 | the fields and result are `PlayerHitW` of the old world |
| Survivor.Game.Contacts | survivor/games/survivor.py:1792-1944 | the fields become `ContactsW` of the old world |
| Survivor.Game.ContactPass | survivor/games/survivor.py:1793-1944 | the loop, which stops once the game is over, leaves the player and mode `ContactsUpTo` gives |
| Survivor.Game.RespawnOne | survivor/games/survivor.py:1583-1605 | the fields become `RespawnOneW` of the old world |
| Survivor.Game.RespawnAll | survivor/games/survivor.py:1573-1605 | the loop's result is `RespawnAllW` over the whole catalog |
| Survivor.Game.NextRespawn | survivor/games/survivor.py:1583-1605 | one turn of the respawn loop |
| Survivor.Game.BibleRespawn | survivor/games/survivor.py:1607-1636 | the fields become `BibleRespawnW` of the old world |
| Survivor.Game.Respawn | survivor/games/survivor.py:1573-1636 | the fields become `RespawnW` of the old world |
| Survivor.Game.TickWeapons | survivor/games/survivor.py:1639-1709 | the weapons become `Ticked` and the marks are `TimerDoomed` |
| Survivor.Game.FindTarget | survivor/games/survivor.py:1764-1765 | the inner loop finds `FirstOf` |
| Survivor.Game.StrikeKind | survivor/games/survivor.py:1763-1781 | the fields and marks become `StrikeKindW` |
| Survivor.Game.PierceStep | survivor/games/survivor.py:1761-1781 | the fields and marks become `PierceAt` |
| Survivor.Game.PiercePass | survivor/games/survivor.py:1761-1781 | the loop's result is `PierceUpTo` over every weapon |
| Survivor.Game.NextPierce | survivor/games/survivor.py:1761-1781 | one turn of the pierce loop |
| Survivor.Game.FlushWeapons | survivor/games/survivor.py:1784-1786 | the weapons become `Survivors` |
| Survivor.Game.WeaponPass | survivor/games/survivor.py:1639-1786 | the fields become `WeaponPassW` of the old world |
| Survivor.Game.LatePierce | survivor/games/survivor.py:2108-2128 | the fields become `LatePierceW` of the old world |
| Survivor.Game.BlinkEnemies | survivor/games/survivor.py:1479-1484 | the enemies become `Blinked` |
| Survivor.Game.TickTexts | survivor/games/survivor.py:1497-1514 | the texts become `TextsTick` |
| Survivor.Game.LiveTexts | survivor/games/survivor.py:1497-1514 | the loop keeps `TextsTick` of the texts |
| Survivor.Game.FadeEnemies | survivor/games/survivor.py:2043-2058 | the fields become `FadeW` of the old world |
| Survivor.Game.MovePlayer | survivor/games/survivor.py:1443-1461 | the player becomes `Walk` of the old player |
| Survivor.Game.FrameStart | survivor/games/survivor.py:1422-1514 | the fields become `FrameStartW` of the old world |
| Survivor.Game.Pickup | survivor/games/survivor.py:2002-2016 | the fields become `PickupW` of the old world |
| Survivor.Game.SetPickedUp | survivor/games/survivor.py:2002-2016 | the orbs and the level, experience and threshold become those the pickup loop reached, and nothing else changes |
| Survivor.Game.Collect | survivor/games/survivor.py:2002-2016 | the loop's orbs, progress and level-up flag are `Kept`, `Gains` and `Levelled` |
| Survivor.Game.ShowUpgradeMenu | survivor/games/survivor.py:835-883 | the menu opens; with a player it holds every candidate for the player's weapons, without one the options are kept |
| Survivor.Game.UpgradesOf | survivor/games/survivor.py:854-862 | the first loop's result is `Upgradable` |
| Survivor.Game.MissingOf | survivor/games/survivor.py:864-871 | the second loop's result is `Unowned` |
| Survivor.Game.ApplyUpgrade | survivor/games/survivor.py:885-919 | the fields become `ApplyUpgradeW` of the old world |
| Survivor.Game.HardenWeapons | survivor/games/survivor.py:910-913 | the weapons become `Harder` |
| Survivor.Game.SpeedUpCooldowns | survivor/games/survivor.py:914-918 | the cooldowns become `SpeedUp` |
| Survivor.Game.ChooseUpgrade | survivor/games/survivor.py:720-734 | the fields become `ChooseUpgradeW` of the old world |
| Survivor.Game.DebugClick | survivor/games/survivor.py:748-796 | the fields become `DebugClickW` of the old world |
| Survivor.Game.Step | survivor/games/survivor.py:1398-2128 | the fields become `StepW` of the old world, and the invariant survives the frame |
| Survivor.Game.Play | survivor/games/survivor.py:1422-2128 | the fields become `PlayW` of the old world |

## Left out

- Rendering (`get_frame`, every `draw_*`), the HTTP server, the agent and recording loops, system prompts and logging are out of scope: they produce pixels or I/O.
- `BaseGame.step` and `num_steps` are only the driver around `step`.
- Randomness is not modelled. `random.randint`, `random.random`, `random.shuffle`, `random.sample` are parameters of the operations that use them.
- Floating-point arithmetic is not modelled:
  - positions, angles and speeds are whole numbers;
  - `Health.Revived` and `Health.HpFraction` use exact reals where Python rounds;
  - `Sim.Quicker` (the `* 0.9` of the attack-speed upgrade) uses exact reals.
- Enemy pursuit and despawning in the enemy loop of `step` (survivor/games/survivor.py:1796-1907) are not modelled: they move float positions, partly by random steps. Whether an enemy, after its move, is still within the despawn distance and touches the player is the parameter `touches` of `Sim.ContactsW`. survivor/games/survivor.py breaks off at line 1996 inside the enemy-death block of that loop, and line 1997 continues in unrelated code, so the removal of the despawned enemies is not in the file.
- Sim.StepW: the weapons' side of the enemy loop (survivor/games/survivor.py:1946-1996) is not wired in. It depends on float positions and knockback, and survivor/games/survivor.py breaks off inside it at line 1996 (line 1997 continues in unrelated code), so the rest of that side of the loop is not in the file. As a consequence, in a modelled frame only the Magic Wand's pierce passes damage enemies. The damage text of line 1990 and the `score += 10` of line 1994 are never reached. The damage rule itself is `Sim.WeaponHitW`.
- After an enemy's hit on the player, the enemy's push-back by `dx * 10` (survivor/games/survivor.py:1942-1944) is not modelled, as it is a float move. The HP animation, blink and section timers of that hit (survivor/games/survivor.py:1919-1936) are not modelled either, as they are cosmetic.
- Rules.OrbitBook, Sim.BookW: a new book is placed at the player's position. The source places it on its orbit, `60 * area` pixels from the player at the book's angle (survivor/games/survivor.py:1289-1290), in float coordinates the model does not represent. The orbit's radius, angle and player are kept in the book's `orbit` field, and no modelled pass reads a book's position.
- Rules.SlashPoint: only the angles 0 and 180 are written out, the only ones spawn_weapon is given (survivor/games/survivor.py:1544-1545). Any other angle would need `cos` and `sin` and is given the 180-degree point. The `width` and `height` attributes spawn_weapon gives a rectangular weapon (survivor/games/survivor.py:1094-1096) are not modelled: nothing in survivor/games/survivor.py reads them back.
- Non-homing weapon motion, arcs, the boomerang's return path, the aura and book orbits, the XP magnet, homing re-aiming (survivor/games/survivor.py:1712-1759, 2018-2040, 2060-2106) and the rise and fade of damage texts are not modelled. All of them only move positions by floating-point steps.
- The knockback timers and the player's and enemies' `hp_transition`/`hp_blink` timers (survivor/games/survivor.py:1464-1476, 1486-1494) are not modelled. They are cosmetic.
- The timed respawns (survivor/games/survivor.py:1573-1636) use a second aim parameter for the Magic Wand, because their random draws are new ones.
- The clicks on the start and restart buttons and the pixel layout of the upgrade menu are not modelled. A click on the menu is the index of the option it hits.
- Survivor.Game.ShowUpgradeMenu: offers every candidate instead of the `random.sample` of at most three (survivor/games/survivor.py:882), because the sample is random. The choice is left to the click.
- Text.ParseNumber: `float()` is modelled for whole numbers, optionally followed by `.0`. So `Decoding.ParseBlockSpec`, `Decoding.DecodeSpec` and `Base.BaseGame.Decode` report a ValueError for a block such as `x:1.5`, which Python's `float()` reads as 1.5. Fractions, exponents, `inf`, `nan` and underscores are not modelled. `-0` reads as 0, where Python keeps `-0.0` and writes it back as `-0.0`. Large numbers are not rounded to the nearest double.
- Text.FloatText: writes digits and `.0` for every whole number. Python's `repr` switches to an exponent (`1e+16`) from 10^16 up.
- Text.IntTextRoundTrip: exact for every integer. Python's `float()` is exact only up to 2^53.
- Decoding.WordRun, Decoding.ValueRun, Decoding.Pairs: `\w` is ASCII letters, digits and `_`, and `\s` is the ASCII and Latin-1 whitespace. Python's classes are Unicode-wide.
- RoundTrip.DecodeEncode: the round trip is claimed only within what the points above model. Attribute values are numbers or strings: nested dictionaries such as `weapons` and `hit_cooldown` are not modelled as values, so they are outside the round trip. Kinds and string values are ASCII. A string value holds no digit and does not name `inf` or `nan`, so `float()` cannot take it for a number. Numbers lie within ±2^53.
- Particles are compared by value: `list.remove` removes the first equal particle rather than the identical object.
- The `Particle` class in survivor/base_game.py:12-19 has no `health_system` attribute and no `take_damage`, yet `apply_damage` uses both. The model follows the code that uses them: enemies and the player carry an optional health state, and damage goes through `HealthSystem.take_damage`.
- `spawn_enemy_wave` always sets `elite_spawned` back to `False`, and the model keeps that. The Magic Wand removals of the late pierce pass (survivor/games/survivor.py:2108-2128) are never flushed, and `Sim.LatePierceW` keeps that as well.
