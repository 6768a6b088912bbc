/** The in-memory cache with lazy purging, and the ideal map it stands for: every key's
    last write, never purged, read against the clock. Times are nanoseconds. */
module Cache {
  import opened Model

  datatype Item = Item(data: string, expiresAt: Option<int>)

  function ExpiresAt(now: int, ttl: int): Option<int> {
    if ttl <= 0 then None else Some(now + ttl)
  }

  predicate Expired(item: Item, now: int) {
    item.expiresAt.Some? && now >= item.expiresAt.value
  }

  /** What a key reads back at a time: its last write, until that expires. */
  function ReadBack(writes: map<string, Item>, key: string, now: int): Option<string> {
    if key in writes && !Expired(writes[key], now) then Some(writes[key].data) else None
  }

  class MemoryCache {
    var items: map<string, Item>
    ghost var writes: map<string, Item>
    ghost var clock: int

    /** Nothing is stored but last writes, and everything unexpired is stored. */
    ghost predicate Valid()
      reads this
    {
      && (forall k :: k in items ==> k in writes && items[k] == writes[k])
      && (forall k :: k in writes && !Expired(writes[k], clock) ==> k in items)
    }

    constructor ()
      ensures Valid() && writes == map[] && clock == 0
    {
      items, writes, clock := map[], map[], 0;
    }

    method PurgeExpired(now: int)
      requires Valid() && now >= clock
      modifies this
      ensures Valid() && writes == old(writes) && clock == now
      ensures forall k :: k in items ==> !Expired(items[k], now)
    {
      clock := now;
      var rest := items.Keys;
      while rest != {}
        invariant Valid() && writes == old(writes) && clock == now
        invariant forall k :: k in items && k !in rest ==> !Expired(items[k], now)
      {
        var k :| k in rest;
        if k in items && Expired(items[k], now) {
          items := items - {k};
        }
        rest := rest - {k};
      }
    }

    /** Marshalling may fail, and then nothing is written. */
    method SetJSON(key: string, data: Option<string>, ttl: int, now: int) returns (ok: bool)
      requires Valid() && now >= clock
      modifies this
      ensures Valid() && ok == data.Some?
      ensures writes == if ok then old(writes)[key := Item(data.value, ExpiresAt(now, ttl))] else old(writes)
      ensures clock == if ok then now else old(clock)
    {
      if data.None? { return false; }
      PurgeExpired(now);
      var item := Item(data.value, ExpiresAt(now, ttl));
      items := items[key := item];
      writes := writes[key := item];
      return true;
    }

    method GetJSON(key: string, now: int) returns (data: Option<string>)
      requires Valid() && now >= clock
      modifies this
      ensures Valid() && writes == old(writes) && clock == now
      ensures data == ReadBack(writes, key, now)
    {
      clock := now;
      if key !in items { return None; }
      if Expired(items[key], now) {
        items := items - {key};
        return None;
      }
      return Some(items[key].data);
    }

    method SetNX(key: string, value: string, ttl: int, now: int) returns (ok: bool)
      requires Valid() && now >= clock
      modifies this
      ensures Valid() && clock == now
      ensures ok <==> ReadBack(old(writes), key, now).None?
      ensures writes == if ok then old(writes)[key := Item(value, ExpiresAt(now, ttl))] else old(writes)
    {
      PurgeExpired(now);
      if key in items && !Expired(items[key], now) {
        return false;
      }
      var item := Item(value, ExpiresAt(now, ttl));
      items := items[key := item];
      writes := writes[key := item];
      return true;
    }
  }

  // ---------- Whole runs ----------

  datatype Op =
    | Set(key: string, data: string, ttl: int, now: int)
    | Get(key: string, now: int)
    | NX(key: string, data: string, ttl: int, now: int)

  predicate Wins(writes: map<string, Item>, op: Op) {
    op.NX? && ReadBack(writes, op.key, op.now).None?
  }

  function Perform(writes: map<string, Item>, op: Op): map<string, Item> {
    if op.Set? || Wins(writes, op) then writes[op.key := Item(op.data, ExpiresAt(op.now, op.ttl))] else writes
  }

  function PerformAll(writes: map<string, Item>, ops: seq<Op>): map<string, Item>
    decreases |ops|
  {
    if ops == [] then writes else PerformAll(Perform(writes, ops[0]), ops[1..])
  }

  ghost predicate Timely(ops: seq<Op>) {
    forall i, j :: 0 <= i < j < |ops| ==> ops[i].now <= ops[j].now
  }

  /** What was written is read back until it expires: after a write with this time-to-live,
      or without one for ever, a read before the expiry finds the written data, whatever
      else happens, if nothing sets the key in between. */
  lemma ReadsBackWhatWasWritten(writes: map<string, Item>, ops: seq<Op>, i: nat, now: int)
    requires Timely(ops) && i < |ops| && now >= ops[|ops| - 1].now
    requires ops[i].Set? || Wins(PerformAll(writes, ops[..i]), ops[i])
    requires forall n :: i < n < |ops| ==> !(ops[n].Set? && ops[n].key == ops[i].key)
    requires ops[i].ttl <= 0 || now < ops[i].now + ops[i].ttl
    ensures ReadBack(PerformAll(writes, ops), ops[i].key, now) == Some(ops[i].data)
  {
    var key, item := ops[i].key, Item(ops[i].data, ExpiresAt(ops[i].now, ops[i].ttl));
    var after, rest := PerformAll(writes, ops[..i + 1]), ops[i + 1..];
    PerformSnoc(writes, ops, i);
    PerformSplit(writes, ops, i + 1);
    assert forall a :: 0 <= a < |rest| ==> rest[a] == ops[a + i + 1];
    KeptUntilExpiry(after, rest, key, item, now);
  }

  lemma {:induction false} KeptUntilExpiry(writes: map<string, Item>, ops: seq<Op>, key: string, item: Item, now: int)
    requires key in writes && writes[key] == item && !Expired(item, now)
    requires forall i :: 0 <= i < |ops| ==> ops[i].now <= now && !(ops[i].Set? && ops[i].key == key)
    ensures var after := PerformAll(writes, ops); key in after && after[key] == item
    decreases |ops|
  {
    if ops != [] {
      KeptUntilExpiry(Perform(writes, ops[0]), ops[1..], key, item, now);
    }
  }

  /** While a key holds an unexpired entry and is not overwritten, no SetNX on it wins
      before the entry's expiry; one without expiry blocks for ever. */
  lemma {:induction false} BlockedUntilExpiry(writes: map<string, Item>, ops: seq<Op>, key: string, j: nat)
    requires Timely(ops) && key in writes && j < |ops|
    requires forall i :: 0 <= i < j ==> !(ops[i].Set? && ops[i].key == key)
    requires ops[j].key == key && Wins(PerformAll(writes, ops[..j]), ops[j])
    ensures writes[key].expiresAt.Some? && ops[j].now >= writes[key].expiresAt.value
    decreases |ops|
  {
    if j == 0 {
      assert ops[..0] == [];
    } else {
      var rest := ops[1..];
      assert ops[..j][1..] == rest[..j - 1];
      assert forall a, b :: 0 <= a < b < |rest| ==> rest[a] == ops[a + 1] && rest[b] == ops[b + 1];
      if !(Wins(writes, ops[0]) && ops[0].key == key) {
        BlockedUntilExpiry(Perform(writes, ops[0]), rest, key, j - 1);
      }
    }
  }

  /** Two winning SetNX calls on one key with no Set of it in between are at least the
      first one's time-to-live apart, whatever else happens in between, other winning
      SetNX calls included; and without a time-to-live there is no second win. */
  lemma WinsAreSpaced(writes: map<string, Item>, ops: seq<Op>, i: nat, j: nat)
    requires Timely(ops) && i < j < |ops| && ops[i].key == ops[j].key
    requires Wins(PerformAll(writes, ops[..i]), ops[i]) && Wins(PerformAll(writes, ops[..j]), ops[j])
    requires forall n :: i < n < j ==> !(ops[n].Set? && ops[n].key == ops[i].key)
    ensures ops[i].ttl > 0 && ops[j].now >= ops[i].now + ops[i].ttl
  {
    hide ReadBack, Perform, Wins;
    var after, rest := PerformAll(writes, ops[..i + 1]), ops[i + 1..];
    PerformSnoc(writes, ops, i);
    WinnerWrites(PerformAll(writes, ops[..i]), ops[i]);
    PerformSplit(writes, ops[..j], i + 1);
    assert ops[..j][..i + 1] == ops[..i + 1] && ops[..j][i + 1..] == rest[..j - i - 1];
    assert forall a :: 0 <= a < |rest| ==> rest[a] == ops[a + i + 1];
    BlockedUntilExpiry(after, rest, ops[i].key, j - i - 1);
  }

  lemma WinnerWrites(writes: map<string, Item>, op: Op)
    requires Wins(writes, op)
    ensures op.NX? && op.key in Perform(writes, op)
    ensures Perform(writes, op)[op.key].expiresAt == ExpiresAt(op.now, op.ttl)
  {}

  lemma PerformSnoc(writes: map<string, Item>, ops: seq<Op>, i: nat)
    requires i < |ops|
    ensures PerformAll(writes, ops[..i + 1]) == Perform(PerformAll(writes, ops[..i]), ops[i])
  {
    hide Perform;
    PerformSplit(writes, ops[..i + 1], i);
    assert ops[..i + 1][..i] == ops[..i] && ops[..i + 1][i..] == [ops[i]] && [ops[i]][1..] == [];
    assert PerformAll(PerformAll(writes, ops[..i]), [ops[i]])
        == PerformAll(Perform(PerformAll(writes, ops[..i]), ops[i]), []);
  }

  lemma {:induction false} PerformSplit(writes: map<string, Item>, ops: seq<Op>, n: nat)
    requires n <= |ops|
    ensures PerformAll(writes, ops) == PerformAll(PerformAll(writes, ops[..n]), ops[n..])
    decreases n
  {
    if n == 0 {
      assert ops[..0] == [] && ops[0..] == ops;
    } else {
      PerformSplit(Perform(writes, ops[0]), ops[1..], n - 1);
      assert ops[..n][1..] == ops[1..][..n - 1] && ops[1..][n - 1..] == ops[n..];
    }
  }
}
