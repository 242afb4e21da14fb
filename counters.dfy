/** The list-counter store: for each (numId, level) of a numbered list, the number
    the next item at that level receives. Absent entries stand for 1. The source
    keys its map by the string "numId_level", which is injective on pairs of
    integers, so the model keys it by the pair itself. */
module Counters {

  /** (numId, level). */
  type Key = (int, int)

  type Store = map<Key, int>

  /** The number the next item of list `numId` at `level` receives. */
  function Current(m: Store, numId: int, level: int): (v: int)
    ensures (numId, level) !in m ==> v == 1
    ensures (numId, level) in m ==> v == m[(numId, level)]
  {
    if (numId, level) in m then m[(numId, level)] else 1
  }

  /** The store after one `getAndIncrement(numId, level)`: its own entry moves one
      past the number handed out, and no other entry changes. */
  function Advanced(m: Store, numId: int, level: int): (r: Store)
    ensures r.Keys == m.Keys + {(numId, level)}
    ensures r[(numId, level)] == Current(m, numId, level) + 1
    ensures forall k :: k in m && k != (numId, level) ==> r[k] == m[k]
  {
    m[(numId, level) := Current(m, numId, level) + 1]
  }

  /** A counter entry of list `numId` at a level deeper than `level`. */
  predicate IsDeeper(k: Key, numId: int, level: int) {
    k.0 == numId && k.1 > level
  }

  /** The store after `resetUpperLevels(numId, level)`: exactly the entries of list
      `numId` deeper than `level` are gone, every other entry keeps its value. */
  function ResetUpper(m: Store, numId: int, level: int): (r: Store)
    ensures forall k :: k in r <==> k in m && !IsDeeper(k, numId, level)
    ensures forall k :: k in r ==> r[k] == m[k]
  {
    map k | k in m && !IsDeeper(k, numId, level) :: m[k]
  }

  /** Every stored number is at least 2 (one past a number handed out). */
  ghost predicate StoreValid(m: Store) {
    forall k :: k in m ==> m[k] >= 2
  }

  class ListCounters {
    var counters: Store

    ghost predicate Valid()
      reads this
    {
      StoreValid(counters)
    }

    constructor ()
      ensures Valid() && counters == map[]
    {
      counters := map[];
    }

    /** Returns the current number of (numId, level), 1 the first time, and
        stores the next one. */
    method GetAndIncrement(numId: int, level: int) returns (current: int)
      requires Valid()
      modifies this
      ensures Valid()
      ensures current >= 1
      ensures current == Current(old(counters), numId, level)
      ensures counters == Advanced(old(counters), numId, level)
    {
      var key := (numId, level);
      current := if key in counters then counters[key] else 1;
      counters := counters[key := current + 1];
    }

    /** Forgets the counters of list `numId` at levels deeper than `currentLevel`:
        collects the matching keys, then removes them one by one. */
    method ResetUpperLevels(numId: int, currentLevel: int)
      requires Valid()
      modifies this
      ensures Valid()
      ensures counters == ResetUpper(old(counters), numId, currentLevel)
    {
      var keysToRemove := set k | k in counters && IsDeeper(k, numId, currentLevel);
      ghost var removed: set<Key> := {};
      while keysToRemove != {}
        invariant Valid()
        invariant removed !! keysToRemove
        invariant removed + keysToRemove == set k | k in old(counters) && IsDeeper(k, numId, currentLevel)
        invariant counters == map k | k in old(counters) && k !in removed :: old(counters)[k]
        decreases keysToRemove
      {
        var key :| key in keysToRemove;
        counters := counters - {key};
        keysToRemove := keysToRemove - {key};
        removed := removed + {key};
      }
    }
  }

  /** `getAndIncrement` applied `j` times to the same (numId, level). */
  function AdvancedTimes(m: Store, numId: int, level: int, j: nat): Store {
    if j == 0 then m else Advanced(AdvancedTimes(m, numId, level, j - 1), numId, level)
  }

  /** Successive `getAndIncrement` calls on an unseen (numId, level) return 1, 2,
      3, ...: after `j` calls the next one returns j + 1. */
  lemma {:induction false} SuccessiveNumbers(m: Store, numId: int, level: int, j: nat)
    requires (numId, level) !in m
    ensures Current(AdvancedTimes(m, numId, level, j), numId, level) == j + 1
  {
    if j > 0 {
      SuccessiveNumbers(m, numId, level, j - 1);
    }
  }

  /** Repeated `getAndIncrement` on one key leaves every other entry alone. */
  lemma {:induction false} AdvancedTimesFrame(m: Store, numId: int, level: int, j: nat, k: Key)
    requires k != (numId, level)
    ensures k in AdvancedTimes(m, numId, level, j) <==> k in m
    ensures k in m ==> AdvancedTimes(m, numId, level, j)[k] == m[k]
  {
    if j > 0 {
      AdvancedTimesFrame(m, numId, level, j - 1, k);
    }
  }

  /** After `resetUpperLevels(numId, level)`, any deeper level of that list starts
      again at 1, while shallower levels and other lists continue where they were. */
  lemma ResetRestartsDeeper(m: Store, numId: int, level: int, numId': int, level': int)
    ensures Current(ResetUpper(m, numId, level), numId', level') ==
            if numId' == numId && level' > level then 1 else Current(m, numId', level')
  {
  }

  /** `resetUpperLevels` is idempotent. */
  lemma ResetIdempotent(m: Store, numId: int, level: int)
    ensures ResetUpper(ResetUpper(m, numId, level), numId, level) == ResetUpper(m, numId, level)
  {
    var once := ResetUpper(m, numId, level);
    var twice := ResetUpper(once, numId, level);
    assert twice.Keys == once.Keys;
  }

  /** `resetUpperLevels` on an empty store leaves it empty, whatever its arguments. */
  lemma ResetEmpty(numId: int, level: int)
    ensures ResetUpper(map[], numId, level) == map[]
  {
    assert ResetUpper(map[], numId, level).Keys == {};
  }

  /** Both operations keep every stored number at least 2. */
  lemma OperationsKeepStoreValid(m: Store, numId: int, level: int, numId': int, level': int)
    requires StoreValid(m)
    ensures StoreValid(Advanced(m, numId, level))
    ensures StoreValid(ResetUpper(m, numId', level'))
    ensures Current(m, numId, level) >= 1
  {
  }
}
