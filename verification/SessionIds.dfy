/** PPPoE session ids: 1..65535, searched cyclically from a cursor that stays behind the last id given out. */
module SessionIds {
  import opened Wire

  const MAX_ID := 0xFFFF

  type Id = x: int | 1 <= x <= MAX_ID witness 1

  function Succ(x: Id): Id {
    if x == MAX_ID then 1 else x + 1
  }

  /** The id `k` steps after `x` on the circle. */
  function Ahead(x: Id, k: nat): Id
    requires k < MAX_ID
  {
    if x + k <= MAX_ID then x + k else x + k - MAX_ID
  }

  /** How many steps lead from `x` to `y`. */
  function Distance(x: Id, y: Id): (k: nat)
    ensures k < MAX_ID && Ahead(x, k) == y
  {
    if x <= y then y - x else y - x + MAX_ID
  }

  datatype Ids = Ids(taken: set<u16>, cursor: Id)

  /** The search, `k` ids into the circle. */
  function Search(s: Ids, k: nat): (r: Option<Id>)
    requires k <= MAX_ID
    ensures r.None? <==> forall j: nat :: k <= j < MAX_ID ==> Ahead(s.cursor, j) in s.taken
    ensures r.Some? ==> r.value !in s.taken && Distance(s.cursor, r.value) >= k
    ensures r.Some? ==> forall j: nat :: k <= j < Distance(s.cursor, r.value) ==> Ahead(s.cursor, j) in s.taken
    decreases MAX_ID - k
  {
    if k == MAX_ID then None
    else if Ahead(s.cursor, k) !in s.taken then Some(Ahead(s.cursor, k))
    else Search(s, k + 1)
  }

  function Allocate(s: Ids): (r: (Ids, Option<Id>)) {
    match Search(s, 0)
    case None => (s, None)
    case Some(x) => (Ids(s.taken + {x}, Succ(x)), Some(x))
  }

  function Release(s: Ids, x: u16): Ids {
    s.(taken := s.taken - {x})
  }

  /** Allocation fails if and only if all 65535 ids are taken; otherwise it gives the cyclically first free one. */
  lemma AllocatesFirstFree(s: Ids)
    ensures var (s', r) := Allocate(s);
            && (r.None? <==> forall x: Id :: x in s.taken)
            && (r.None? ==> s' == s)
            && (r.Some? ==> r.value !in s.taken && s'.taken == s.taken + {r.value} &&
                            forall y: Id :: y !in s.taken ==> Distance(s.cursor, r.value) <= Distance(s.cursor, y))
  {
    var r := Allocate(s).1;
    forall x: Id
      ensures r.None? ==> x in s.taken
      ensures r.Some? && x !in s.taken ==> Distance(s.cursor, r.value) <= Distance(s.cursor, x)
    {
      assert Ahead(s.cursor, Distance(s.cursor, x)) == x;
    }
  }

  // ---- Runs --------------------------------------------------------------------------------------------------------

  /** A clean-up releases every id and leaves the cursor where it is. */
  datatype Event = Allocates | Releases(id: u16) | ReleasesAll

  function Step(s: Ids, e: Event): Ids {
    match e
    case Allocates => Allocate(s).0
    case Releases(x) => Release(s, x)
    case ReleasesAll => s.(taken := {})
  }

  /** `states[i]` and `states[i+1]` are before and after `events[i]`. */
  ghost predicate IsRun(states: seq<Ids>, events: seq<Event>) {
    |states| == |events| + 1 && forall i :: 0 <= i < |events| ==> states[i + 1] == Step(states[i], events[i])
  }

  predicate Gives(s: Ids, e: Event, x: Id) {
    e.Allocates? && Allocate(s).1 == Some(x)
  }

  /** Id `y` was in use at some moment after event `i`, up to state `j`. */
  ghost predicate InUse(states: seq<Ids>, i: nat, j: nat, y: Id)
    requires j < |states|
  {
    exists k :: i < k <= j && y in states[k].taken
  }

  /** After event `i` gave out `x`: the ids between `x` and the cursor have been in use, or all but `x` have. */
  ghost predicate Swept(states: seq<Ids>, i: nat, j: nat, x: Id)
    requires j < |states|
  {
    || (forall y: Id :: y != x ==> InUse(states, i, j, y))
    || (forall y: Id :: Distance(Succ(x), y) < Distance(Succ(x), states[j].cursor) ==> InUse(states, i, j, y))
  }

  lemma InUseLater(states: seq<Ids>, i: nat, j: nat, y: Id)
    requires j + 1 < |states| && InUse(states, i, j, y)
    ensures InUse(states, i, j + 1, y)
  {
  }

  /** What one allocation adds: the ids it skipped were in use before it, the one it gave is in use after it. */
  lemma Skipped(states: seq<Ids>, i: nat, j: nat, x: Id, z: Id, y: Id)
    requires i < j && j + 1 < |states| && Swept(states, i, j, x)
    requires Allocate(states[j]).1 == Some(z) && states[j + 1] == Allocate(states[j]).0
    requires y != x
    requires || Distance(Succ(x), y) < Distance(Succ(x), states[j].cursor)
             || Distance(states[j].cursor, y) <= Distance(states[j].cursor, z)
    ensures InUse(states, i, j + 1, y)
  {
    var c := states[j].cursor;
    if Distance(c, y) <= Distance(c, z) {
      if y == z {
        assert y in states[j + 1].taken;
      } else {
        assert Ahead(c, Distance(c, y)) == y;
        assert y in states[j].taken;
      }
    } else {
      assert InUse(states, i, j, y);
    }
  }

  lemma SweptStep(states: seq<Ids>, i: nat, j: nat, x: Id, e: Event)
    requires i < j && j + 1 < |states| && states[j + 1] == Step(states[j], e) && Swept(states, i, j, x)
    ensures Swept(states, i, j + 1, x)
  {
    var c, n := states[j].cursor, j + 1;
    if forall y: Id :: y != x ==> InUse(states, i, j, y) {
      forall y: Id ensures y != x ==> InUse(states, i, n, y) {
        if y != x { InUseLater(states, i, j, y); }
      }
    } else if e.Allocates? && Allocate(states[j]).1.Some? {
      var z := Allocate(states[j]).1.value;
      if Distance(Succ(x), c) + Distance(c, z) >= MAX_ID - 1 {
        // The search reached `x` or went past it: everything ahead of the cursor up to `x` was in use.
        forall y: Id ensures y != x ==> InUse(states, i, n, y) {
          if y != x { Skipped(states, i, j, x, z, y); }
        }
      } else {
        forall y: Id | Distance(Succ(x), y) < Distance(Succ(x), Succ(z)) ensures InUse(states, i, n, y) {
          Skipped(states, i, j, x, z, y);
        }
      }
    } else {
      forall y: Id | Distance(Succ(x), y) < Distance(Succ(x), c) ensures InUse(states, i, n, y) {
        InUseLater(states, i, j, y);
      }
    }
  }

  lemma {:induction false} SweptAlong(states: seq<Ids>, events: seq<Event>, i: nat, j: nat, x: Id)
    requires IsRun(states, events) && i < j <= |events| && Gives(states[i], events[i], x)
    ensures Swept(states, i, j, x)
    decreases j
  {
    if j == i + 1 {
      SweptFirst(states, events, i, x);
    } else {
      SweptAlong(states, events, i, j - 1, x);
      SweptNext(states, events, i, j - 1, x);
    }
  }

  lemma SweptNext(states: seq<Ids>, events: seq<Event>, i: nat, j: nat, x: Id)
    requires IsRun(states, events) && i < j < |events| && Swept(states, i, j, x)
    ensures Swept(states, i, j + 1, x)
  {
    SweptStep(states, i, j, x, events[j]);
  }

  /** Right after `x` was given out the cursor is behind it, and nothing has been passed. */
  lemma SweptFirst(states: seq<Ids>, events: seq<Event>, i: nat, x: Id)
    requires IsRun(states, events) && i < |events| && Gives(states[i], events[i], x)
    ensures Swept(states, i, i + 1, x)
  {
    assert states[i + 1].cursor == Succ(x);
  }

  /** An id is given out again only after a full circle: between two allocations of `x`, every other id has been in
      use. */
  lemma FullCircle(states: seq<Ids>, events: seq<Event>, i: nat, j: nat, x: Id, y: Id)
    requires IsRun(states, events) && i < j < |events| && y != x
    requires Gives(states[i], events[i], x) && Gives(states[j], events[j], x)
    ensures InUse(states, i, j, y)
  {
    SweptAlong(states, events, i, j, x);
    var c := states[j].cursor;
    if Distance(c, y) < Distance(c, x) {
      assert Ahead(c, Distance(c, y)) == y;
      assert y in states[j].taken;
    } else {
      assert Distance(Succ(x), y) < Distance(Succ(x), c);
    }
  }
}
