/** One process of the audience package: its objects, proved call by call against the operations of `AudienceCache`. */
module AudienceProcess {
  import opened Results
  import opened AudienceKey
  import opened AudienceCache

  /** The stores every process reaches: the table, the membership cache and the generation cache. */
  class Backend {
    var now: int
    var table: Table
    var entries: map<string, Entry>
    var generations: map<string, Generation>

    constructor (now: int, table: Table)
      ensures View() == Shared(now, table, map[], map[])
    {
      this.now := now;
      this.table := table;
      entries := map[];
      generations := map[];
    }

    ghost function View(): Shared
      reads this
    {
      Shared(now, table, entries, generations)
    }

    /** What the membership cache holds live under `key`. */
    method Read(key: string) returns (r: Option<Entry>)
      ensures r == if key in entries && now < entries[key].until then Some(entries[key]) else None
    {
      if key in entries && now < entries[key].until {
        return Some(entries[key]);
      }
      r := None;
    }
  }

  /** The generations this process read lately, each trusted for two seconds. */
  class LocalGenerationValkery {
    var entries: Locals

    constructor ()
      ensures entries == map[]
    {
      entries := map[];
    }

    /** The generation held for `audience`, or none when nothing fresh enough is held. */
    method Get(audience: string, backend: Backend) returns (r: Option<int>)
      ensures r == if LocalFresh(backend.View(), entries, audience) then Some(entries[audience].value) else None
    {
      if audience !in entries || LOCAL_GENERATION_TTL <= backend.now - entries[audience].at {
        return None;
      }
      r := Some(entries[audience].value);
    }

    method Set(audience: string, value: int, backend: Backend)
      modifies this
      ensures entries == old(entries)[audience := LocalGeneration(value, backend.now)]
    {
      entries := entries[audience := LocalGeneration(value, backend.now)];
    }
  }

  /** What a caller asked a membership to last: the declaration's own lifetime, forever, or so long. */
  datatype JoinTtl = Unset | Forever | Lasting(ttl: int)

  /** One declared audience of this process. */
  class Audience {
    const feature: string
    const name: string
    const ttl: Option<int>
    const backend: Backend
    const localGenerations: LocalGenerationValkery

    constructor (feature: string, name: string, ttl: Option<int>, backend: Backend, localGenerations: LocalGenerationValkery)
      ensures this.feature == feature && this.name == name && this.ttl == ttl
      ensures this.backend == backend && this.localGenerations == localGenerations
    {
      this.feature := feature;
      this.name := name;
      this.ttl := ttl;
      this.backend := backend;
      this.localGenerations := localGenerations;
    }

    /** The generation this audience is at, trusting a fresh local read before asking the shared cache. */
    method AskGeneration() returns (g: int)
      modifies localGenerations
      ensures g == CurrentGeneration(backend.View(), old(localGenerations.entries), name)
      ensures localGenerations.entries == AfterAsking(backend.View(), old(localGenerations.entries), name)
    {
      var local := localGenerations.Get(name, backend);
      if local.Some? {
        return local.value;
      }
      g := if name in backend.generations && backend.now < backend.generations[name].until
           then backend.generations[name].value else 0;
      localGenerations.Set(name, g, backend);
    }

    /** Drops what the cache holds for `member`, so the next read goes to the table. */
    method ForgetMembership(member: string)
      modifies backend`entries, localGenerations
      ensures backend.View() == Evicted(old(backend.View()), name,
                                        CurrentGeneration(old(backend.View()), old(localGenerations.entries), name), member)
      ensures localGenerations.entries == AfterAsking(old(backend.View()), old(localGenerations.entries), name)
    {
      var g := AskGeneration();
      backend.entries := backend.entries - {EntryOf(name, g, member)};
    }

    /** Retires every entry this audience holds, without touching one of them. */
    method ForgetAudience(jitter: nat)
      modifies backend`generations, localGenerations
      ensures var next := NextGeneration(old(backend.View()), old(localGenerations.entries), name);
              && backend.View() == Bumped(old(backend.View()), name, next, jitter)
              && localGenerations.entries == old(localGenerations.entries)[name := LocalGeneration(next, backend.now)]
    {
      var g := AskGeneration();
      var next := if backend.now < g + 1 then g + 1 else backend.now;
      backend.generations :=
        backend.generations[name := Generation(next, backend.now + GENERATION_TTL + jitter * SECOND, backend.now)];
      localGenerations.Set(name, next, backend);
    }

    /** The row held for `member`, loading it from the table when the cache does not hold it. */
    method CachedMembership(member: string, jitter: nat, refresh: bool) returns (row: Option<Row>)
      modifies backend`entries, localGenerations
      ensures var s, g := old(backend.View()), CurrentGeneration(old(backend.View()), old(localGenerations.entries), name);
              var held := EntryAt(s, name, g, member);
              && row == (if held.Some? then held.value.row else RowAt(s.table, feature, name, member))
              && backend.View() == (if held.None? || refresh then Filled(s, feature, name, g, member, jitter) else s)
      ensures localGenerations.entries == AfterAsking(old(backend.View()), old(localGenerations.entries), name)
    {
      var g := AskGeneration();
      var key := EntryOf(name, g, member);
      var held := backend.Read(key);
      var pk := Pk(feature, name, member);
      var loaded := if pk in backend.table then Some(backend.table[pk]) else None;
      row := if held.Some? then held.value.row else loaded;
      if held.None? || refresh {
        backend.entries := backend.entries[key := Entry(loaded, backend.now + ENTRY_TTL + jitter * SECOND, backend.now)];
      }
    }

    function ExpiresAt(asked: JoinTtl): Option<int>
      reads backend
    {
      match asked
      case Unset => (if ttl.Some? then Some(backend.now + ttl.value) else None)
      case Forever => None
      case Lasting(ms) => Some(backend.now + ms)
    }

    /** Whether `member` belongs to this audience. */
    method Has(member: string, jitter: nat, refresh: bool) returns (r: Answer)
      modifies backend, localGenerations
      ensures After(backend.View(), localGenerations.entries, r)
              == Perform(old(backend.View()), old(localGenerations.entries),
                         Op.Has(feature, name, member, jitter, refresh))
    {
      if !IsMember(member) {
        return BadMember;
      }
      var row := CachedMembership(member, jitter, refresh);
      r := Belongs(row.Some? && !HasExpired(row.value, backend.now));
    }

    /** Puts `member` in, then evicts what the cache holds of it, even when the write was refused. */
    method Add(member: string, asked: JoinTtl, refused: bool) returns (r: Answer)
      modifies backend, localGenerations
      ensures After(backend.View(), localGenerations.entries, r)
              == Perform(old(backend.View()), old(localGenerations.entries),
                         Op.Add(feature, name, member, old(ExpiresAt(asked)), refused))
      ensures r == Okay ==>
                var row := RowAt(backend.table, feature, name, member);
                && row.Some?
                && (row.value.expiresAt == None <==> asked == Forever || (asked == Unset && ttl == None))
                && (asked.Lasting? ==> row.value.expiresAt == Some(backend.now + asked.ttl))
                && (asked == Unset && ttl.Some? ==> row.value.expiresAt == Some(backend.now + ttl.value))
    {
      if !IsMember(member) {
        return BadMember;
      }
      if !refused {
        backend.table := backend.table[Pk(feature, name, member) := Row(ExpiresAt(asked))];
      }
      ForgetMembership(member);
      r := if refused then Backend else Okay;
    }

    /** Writes every one of `members`, a chunk at a time, stopping at the first chunk refused. */
    method WriteMemberships(members: seq<string>, expiresAt: Option<int>, refusedAt: Option<nat>) returns (ok: bool)
      modifies backend`table
      ensures var count := WrittenCount(members, refusedAt);
              && backend.table == PutAll(old(backend.table), feature, name, members[..count], Row(expiresAt))
              && ok == (count == |members|)
    {
      var at, chunk := 0, 0;
      assert members[..0] == [];
      while at < |members|
        invariant 0 <= chunk && at == chunk * BULK_CHUNK_SIZE
        invariant refusedAt.Some? ==> refusedAt.value >= chunk || refusedAt.value * BULK_CHUNK_SIZE >= |members|
        invariant backend.table == PutAll(old(backend.table), feature, name, members[..Least(at, |members|)], Row(expiresAt))
      {
        if refusedAt == Some(chunk) {
          return false;
        }
        var end := Least(at + BULK_CHUNK_SIZE, |members|);
        AppendChunk(old(backend.table), feature, name, members, at, end, Row(expiresAt));
        backend.table := PutAll(backend.table, feature, name, members[at..end], Row(expiresAt));
        at := at + BULK_CHUNK_SIZE;
        chunk := chunk + 1;
      }
      assert members[..|members|] == members;
      ok := true;
    }

    /** Puts every one of `members` in, and retires the whole audience once. */
    method AddMany(members: seq<string>, asked: JoinTtl, refusedAt: Option<nat>, jitter: nat) returns (r: Answer)
      modifies backend, localGenerations
      ensures After(backend.View(), localGenerations.entries, r)
              == Perform(old(backend.View()), old(localGenerations.entries),
                         Op.AddMany(feature, name, members, old(ExpiresAt(asked)), refusedAt, jitter))
    {
      for i := 0 to |members|
        invariant forall k | 0 <= k < i :: IsMember(members[k])
      {
        if !IsMember(members[i]) {
          assert members[i] in members;
          return BadMember;
        }
      }
      if members == [] {
        return Okay;
      }
      var written := WriteMemberships(members, ExpiresAt(asked), refusedAt);
      if !written {
        return Backend;
      }
      ForgetAudience(jitter);
      r := Okay;
    }

    /** Takes `member` out, and evicts what the cache holds of it, even when the delete was refused. */
    method Remove(member: string, refused: bool) returns (r: Answer)
      modifies backend, localGenerations
      ensures After(backend.View(), localGenerations.entries, r)
              == Perform(old(backend.View()), old(localGenerations.entries), Op.Remove(feature, name, member, refused))
    {
      if !IsMember(member) {
        return BadMember;
      }
      var pk := Pk(feature, name, member);
      var removed := pk in backend.table && !refused;
      if removed {
        backend.table := backend.table - {pk};
      }
      ForgetMembership(member);
      r := if removed then Okay else NotFound;
    }

    /** Moves when `member` is dropped, without putting anybody in: an update that was refused reads as no row. */
    method Retime(member: string, lasting: Option<int>, refused: bool) returns (r: Answer)
      modifies backend, localGenerations
      ensures After(backend.View(), localGenerations.entries, r)
              == Perform(old(backend.View()), old(localGenerations.entries),
                         Op.Ttl(feature, name, member,
                                if lasting.Some? then Some(old(backend.now) + lasting.value) else None, refused))
    {
      if !IsMember(member) {
        return BadMember;
      }
      var pk := Pk(feature, name, member);
      var live := pk in backend.table && !HasExpired(backend.table[pk], backend.now);
      if live && !refused {
        backend.table := backend.table[pk := Row(if lasting.Some? then Some(backend.now + lasting.value) else None)];
      }
      ForgetMembership(member);
      r := if live && !refused then Okay else NotFound;
    }

    /** Empties this audience, and retires what the cache holds of it even when the wipe was refused. */
    method Clear(refused: bool, jitter: nat) returns (r: Answer)
      modifies backend, localGenerations
      ensures After(backend.View(), localGenerations.entries, r)
              == Perform(old(backend.View()), old(localGenerations.entries), Op.Clear(feature, name, refused, jitter))
      ensures r == Okay ==> forall m :: RowAt(backend.table, feature, name, m) == None
    {
      if !refused {
        backend.table := Dropped(backend.table, feature, name);
      }
      ForgetAudience(jitter);
      r := if refused then Backend else Okay;
    }

    /** Physically removes the rows that have expired, and counts them. */
    method Reap() returns (r: Answer)
      modifies backend
      ensures After(backend.View(), localGenerations.entries, r)
              == Perform(old(backend.View()), localGenerations.entries, Op.Reap(feature, name))
    {
      var reaped := set pk | pk in backend.table && Reapable(backend.table, feature, name, backend.now, pk);
      backend.table := Reaped(backend.table, feature, name, backend.now);
      r := Removed(|reaped|);
    }
  }

  function Least(a: nat, b: nat): nat
  {
    if a < b then a else b
  }

  lemma PutAllUnfolds(table: Table, feature: string, audience: string, first: seq<string>, last: string, row: Row)
    ensures PutAll(table, feature, audience, first + [last], row)
            == Put(PutAll(table, feature, audience, first, row), feature, audience, last, row)
  {
    var all := first + [last];
    assert all[..|all| - 1] == first && all[|all| - 1] == last;
  }

  lemma AppendsAssociate(first: seq<string>, second: seq<string>, last: string)
    ensures first + (second + [last]) == (first + second) + [last]
  {
  }

  /** Upserting one list and then another is upserting both, one after the other. */
  lemma {:induction false} PutAllAppends(table: Table, feature: string, audience: string, first: seq<string>,
                                         second: seq<string>, row: Row)
    ensures PutAll(PutAll(table, feature, audience, first, row), feature, audience, second, row)
            == PutAll(table, feature, audience, first + second, row)
  {
    if second == [] {
      assert first + second == first;
    } else {
      var init, last := second[..|second| - 1], second[|second| - 1];
      assert second == init + [last];
      PutAllAppends(table, feature, audience, first, init, row);
      PutAllUnfolds(PutAll(table, feature, audience, first, row), feature, audience, init, last, row);
      PutAllUnfolds(table, feature, audience, first + init, last, row);
      AppendsAssociate(first, init, last);
    }
  }

  lemma AppendChunk(table: Table, feature: string, audience: string, members: seq<string>, at: nat, end: nat, row: Row)
    requires at <= end <= |members|
    ensures PutAll(PutAll(table, feature, audience, members[..at], row), feature, audience, members[at..end], row)
            == PutAll(table, feature, audience, members[..end], row)
  {
    PutAllAppends(table, feature, audience, members[..at], members[at..end], row);
    assert members[..at] + members[at..end] == members[..end];
  }
}
