// timing.py: named durations kept in insertion order (an OrderedDict from
// name to seconds), recorded by checkpoints or around a block, and merged by
// `+` and `+=`. Clock readings are inputs; durations are reals.
module Timing {
  import opened Wrappers

  /** An ordered dict from interval name to duration, as its items in order. */
  type Events = seq<(string, real)>

  /** The dict's keys, in order. */
  function Keys(e: Events): (ks: seq<string>)
    ensures |ks| == |e|
  {
    if e == [] then [] else [e[0].0] + Keys(e[1..])
  }

  /** No name occurs twice: what makes an item sequence a dict. */
  predicate Distinct(ks: seq<string>)
  {
    |ks| == 0 || (ks[0] !in ks[1..] && Distinct(ks[1..]))
  }

  /** events.get(name): the duration stored under name, if any. */
  function Find(e: Events, name: string): Option<real>
  {
    if e == [] then None
    else if e[0].0 == name then Some(e[0].1)
    else Find(e[1..], name)
  }

  /** A name has a duration exactly when it is one of the keys. */
  lemma {:induction false} FindKeys(e: Events, name: string)
    ensures Find(e, name).Some? <==> name in Keys(e)
  {
    if e != [] {
      FindKeys(e[1..], name);
    }
  }

  /** events.get(name, 0.0). */
  function GetOrZero(e: Events, name: string): real
  {
    match Find(e, name)
    case Some(d) => d
    case None => 0.0
  }

  /**
   * events[name] = d: an existing name keeps its place and gets the new duration,
   * a new name goes at the end; no other entry changes.
   */
  function Store(e: Events, name: string, d: real): Events
  {
    if e == [] then [(name, d)]
    else if e[0].0 == name then [(name, d)] + e[1..]
    else [e[0]] + Store(e[1..], name, d)
  }

  /** After events[name] = d the keys are the same, with name appended if it was new. */
  lemma {:induction false} StoreKeys(e: Events, name: string, d: real)
    ensures Keys(Store(e, name, d)) == if name in Keys(e) then Keys(e) else Keys(e) + [name]
  {
    if e != [] {
      assert Keys(e)[1..] == Keys(e[1..]);
      if e[0].0 == name {
        assert ([(name, d)] + e[1..])[1..] == e[1..];
      } else {
        var rest := Store(e[1..], name, d);
        StoreKeys(e[1..], name, d);
        assert ([e[0]] + rest)[1..] == rest;
      }
    }
  }

  /** Storing into a dict gives a dict. */
  lemma {:induction false} StoreDistinct(e: Events, name: string, d: real)
    requires Distinct(Keys(e))
    ensures Distinct(Keys(Store(e, name, d)))
  {
    StoreKeys(e, name, d);
    if name !in Keys(e) {
      AppendDistinct(Keys(e), name);
    }
  }

  lemma {:induction false} AppendDistinct(ks: seq<string>, k: string)
    requires Distinct(ks) && k !in ks
    ensures Distinct(ks + [k])
  {
    if ks != [] {
      AppendDistinct(ks[1..], k);
      assert (ks + [k])[1..] == ks[1..] + [k];
    }
  }

  /** After events[name] = d, name has duration d and every other name the one it had. */
  lemma {:induction false} StoreFind(e: Events, name: string, d: real, k: string)
    ensures Find(Store(e, name, d), k) == if k == name then Some(d) else Find(e, k)
  {
    if e != [] && e[0].0 != name {
      StoreFind(e[1..], name, d, k);
    }
  }

  /** The loop of `+=`: each item of `b` in turn, added to the duration `a` has for it (0.0 if none). */
  function MergeInto(a: Events, b: Events): Events
    decreases |b|
  {
    if b == [] then a
    else MergeInto(Store(a, b[0].0, GetOrZero(a, b[0].0) + b[0].1), b[1..])
  }

  /** `a + b` as a value: or None for a name in neither, the sum for a name in both. */
  function Plus(x: Option<real>, y: Option<real>): Option<real>
  {
    match (x, y)
    case (None, None) => None
    case (Some(u), None) => Some(u)
    case (None, Some(v)) => Some(v)
    case (Some(u), Some(v)) => Some(u + v)
  }

  /** The names of `kb` that `ka` does not have yet, in the order they first occur in `kb`. */
  function NewKeys(ka: seq<string>, kb: seq<string>): (ks: seq<string>)
    decreases |kb|
  {
    if kb == [] then []
    else if kb[0] in ka then NewKeys(ka, kb[1..])
    else [kb[0]] + NewKeys(ka + [kb[0]], kb[1..])
  }

  /** One item of the merge loop: the names so far followed by the names still to come stay the same. */
  lemma NewKeysStep(ka: seq<string>, ka': seq<string>, k: string, kb: seq<string>)
    requires ka' == if k in ka then ka else ka + [k]
    ensures ka' + NewKeys(ka', kb) == ka + NewKeys(ka, [k] + kb)
  {
    var kb' := [k] + kb;
    assert kb'[0] == k && kb'[1..] == kb;
    if k in ka {
      assert NewKeys(ka, kb') == NewKeys(ka, kb);
    } else {
      var rest := NewKeys(ka', kb);
      assert NewKeys(ka, kb') == [k] + rest;
      assert ka' + rest == ka + ([k] + rest);
    }
  }

  /** After a merge, `a`'s names come first in their order, then `b`'s new names in theirs. */
  lemma {:induction false} MergeKeys(a: Events, b: Events)
    ensures Keys(MergeInto(a, b)) == Keys(a) + NewKeys(Keys(a), Keys(b))
    decreases |b|
  {
    if b != [] {
      var k := b[0].0;
      var a' := Store(a, k, GetOrZero(a, k) + b[0].1);
      MergeKeys(a', b[1..]);
      StoreKeys(a, k, GetOrZero(a, k) + b[0].1);
      NewKeysStep(Keys(a), Keys(a'), k, Keys(b[1..]));
    }
  }

  /** A dict's tail is a dict without the head's name. */
  lemma DistinctTail(b: Events)
    requires b != [] && Distinct(Keys(b))
    ensures Distinct(Keys(b[1..])) && Find(b[1..], b[0].0) == None
  {
    assert Keys(b)[1..] == Keys(b[1..]);
    FindKeys(b[1..], b[0].0);
  }

  /** After a merge, a name in both operands has the sum of their durations, any other name its only one. */
  lemma {:induction false} MergeDurations(a: Events, b: Events, k: string)
    requires Distinct(Keys(b))
    ensures Find(MergeInto(a, b), k) == Plus(Find(a, k), Find(b, k))
    decreases |b|
  {
    if b != [] {
      var k0 := b[0].0;
      var a' := Store(a, k0, GetOrZero(a, k0) + b[0].1);
      DistinctTail(b);
      MergeDurations(a', b[1..], k);
      StoreFind(a, k0, GetOrZero(a, k0) + b[0].1, k);
    }
  }

  /** The merge loop from item i on is one item merged, then the loop from item i + 1 on. */
  lemma MergeStep(a: Events, items: Events, i: nat)
    requires i < |items|
    ensures MergeInto(a, items[i..]) ==
      MergeInto(Store(a, items[i].0, GetOrZero(a, items[i].0) + items[i].1), items[i + 1..])
  {
    assert items[i..][0] == items[i] && items[i..][1..] == items[i + 1..];
  }

  /** Merging into a dict gives a dict. */
  lemma {:induction false} MergeDistinct(a: Events, b: Events)
    requires Distinct(Keys(a))
    ensures Distinct(Keys(MergeInto(a, b)))
    decreases |b|
  {
    if b != [] {
      StoreDistinct(a, b[0].0, GetOrZero(a, b[0].0) + b[0].1);
      MergeDistinct(Store(a, b[0].0, GetOrZero(a, b[0].0) + b[0].1), b[1..]);
    }
  }

  /** to_json_compat(): a plain dict with the same items, the order given up. */
  function ToJsonCompat(e: Events): (m: map<string, real>)
    ensures forall k :: k in m <==> k in Keys(e)
  {
    if e == [] then map[] else map[e[0].0 := e[0].1] + ToJsonCompat(e[1..])
  }

  /** The plain dict holds, for every name, the duration the ordered one has. */
  lemma {:induction false} ToJsonCompatFind(e: Events, k: string)
    requires Distinct(Keys(e)) && k in Keys(e)
    ensures Find(e, k) == Some(ToJsonCompat(e)[k])
  {
    assert Keys(e)[1..] == Keys(e[1..]);
    if e[0].0 != k {
      ToJsonCompatFind(e[1..], k);
    } else {
      assert k !in ToJsonCompat(e[1..]);
    }
  }

  /** The AssertionError that recording an already present name raises. */
  function NotExpected(name: string): Exception
  {
    Exception("AssertionError", name + " not expected in events")
  }

  /** A Timing object: its events and the open checkpoint interval (name and start). */
  class Timing {
    var events: Events
    var lastName: string
    var lastCheckpoint: real

    predicate Valid()
      reads this
    {
      Distinct(Keys(events))
    }

    /** Timing(events=initial); _last_name and _last_checkpoint keep their class defaults '' and 0.0. */
    constructor (initial: Events)
      requires Distinct(Keys(initial))
      ensures Valid() && events == initial && lastName == "" && lastCheckpoint == 0.0
    {
      events := initial;
      lastName := "";
      lastCheckpoint := 0.0;
    }

    /** clear(): no events are left; the open checkpoint stays. */
    method Clear()
      modifies this
      ensures Valid() && events == [] && lastName == old(lastName) && lastCheckpoint == old(lastCheckpoint)
    {
      events := [];
    }

    /**
     * record_duration(name) around a block that ran from `start` to `end` with
     * outcome `body`: the duration is recorded whether or not the block raised,
     * and the block's outcome passes through; a name already recorded raises
     * AssertionError instead and records nothing.
     */
    method RecordDuration(name: string, start: real, end: real, body: Result<()>) returns (r: Result<()>)
      requires Valid()
      modifies this
      ensures Valid() && lastName == old(lastName) && lastCheckpoint == old(lastCheckpoint)
      ensures name in Keys(old(events)) ==> r == Raise(NotExpected(name)) && events == old(events)
      ensures name !in Keys(old(events)) ==> r == body && events == Store(old(events), name, end - start)
      ensures name !in Keys(old(events)) ==> Keys(events) == Keys(old(events)) + [name] && Find(events, name) == Some(end - start)
    {
      var duration := end - start;
      if name in Keys(events) {
        return Raise(NotExpected(name));
      }
      StoreDistinct(events, name, duration);
      StoreKeys(events, name, duration);
      StoreFind(events, name, duration, name);
      events := Store(events, name, duration);
      r := body;
    }

    /**
     * checkpoint(name) at clock reading `now`: closes the open interval, if it
     * has a non-empty name, by recording its duration, and opens one named
     * `name`. Closing a name already recorded raises AssertionError and
     * changes nothing.
     */
    method Checkpoint(name: string, now: real) returns (r: Result<()>)
      requires Valid()
      modifies this
      ensures Valid()
      ensures old(lastName) != [] && old(lastName) in Keys(old(events)) ==>
        (r == Raise(NotExpected(old(lastName))) && events == old(events) &&
         lastName == old(lastName) && lastCheckpoint == old(lastCheckpoint))
      ensures old(lastName) == [] ==> r == Ok(()) && events == old(events)
      ensures old(lastName) != [] && old(lastName) !in Keys(old(events)) ==>
        (r == Ok(()) && events == Store(old(events), old(lastName), now - old(lastCheckpoint)) &&
         Keys(events) == Keys(old(events)) + [old(lastName)])
      ensures r.Ok? ==> lastName == name && lastCheckpoint == now
    {
      if lastName != [] {
        var duration := now - lastCheckpoint;
        if lastName in Keys(events) {
          return Raise(NotExpected(lastName));
        }
        StoreDistinct(events, lastName, duration);
        StoreKeys(events, lastName, duration);
        events := Store(events, lastName, duration);
      }
      lastName := name;
      lastCheckpoint := now;
      r := Ok(());
    }

    /**
     * `self += other`: every item of other, in other's order, is added into
     * self's events in place. other may be self itself, which doubles every duration.
     */
    method IAdd(other: Timing)
      requires Valid() && other.Valid()
      modifies this
      ensures Valid() && events == MergeInto(old(events), old(other.events))
      ensures lastName == old(lastName) && lastCheckpoint == old(lastCheckpoint)
    {
      var items := other.events;
      var i := 0;
      while i < |items|
        invariant 0 <= i <= |items|
        invariant Distinct(Keys(events))
        invariant MergeInto(events, items[i..]) == MergeInto(old(events), items)
        invariant lastName == old(lastName) && lastCheckpoint == old(lastCheckpoint)
      {
        var name := items[i].0;
        var duration := items[i].1;
        var selfDuration := GetOrZero(events, name);
        MergeStep(events, items, i);
        StoreDistinct(events, name, selfDuration + duration);
        events := Store(events, name, selfDuration + duration);
        i := i + 1;
      }
      assert items[i..] == [];
    }

    /**
     * `self + other`: a new Timing over a copy of self's events, with other
     * merged into it; both operands are left as they were.
     */
    method Add(other: Timing) returns (result: Timing)
      requires Valid() && other.Valid()
      ensures fresh(result) && result.Valid()
      ensures result.events == MergeInto(events, other.events)
      ensures result.lastName == "" && result.lastCheckpoint == 0.0
    {
      result := new Timing(events);
      result.IAdd(other);
    }
  }
}
