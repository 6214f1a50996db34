/** Event records (clerk/keeper.go, clerk/handler.go, clerk/side_handler.go): records of several
    root chains, each with its own numbering, are renumbered in the order they are accepted. */
module Clerk {
  import opened GoInt
  import opened Options
  import opened SideTx

  const LOG_INDEX_UNIT: nat := 100000
  const CHAIN_ID_UNIT: nat := 100

  datatype Record = Record(
    id: U64, txHash: nat, logIndex: U64, contract: nat, data: seq<Byte>, chainId: nat, recordTime: int,
    rootChain: string)

  datatype MsgEventRecord = MsgEventRecord(
    id: U64, txHash: nat, logIndex: U64, blockNumber: U64, contract: nat, data: seq<Byte>, chainId: nat,
    rootChain: string)

  type Pair = (string, U64)

  datatype Store = Store(
    records: map<U64, Record>, idMap: map<Pair, U64>, latestId: U64,
    rootTimes: set<(string, int, U64)>, times: set<(int, U64)>, sequences: set<nat>)

  // ---------------------------------------------------------------- sequence numbers

  function RootChainId(rootChain: string): nat {
    if rootChain == "tron" then 1 else if rootChain == "eth" then 2 else if rootChain == "bsc" then 3 else 0
  }

  predicate Known(rootChain: string) {
    rootChain in {"tron", "eth", "bsc"}
  }

  function Sequence(blockNumber: nat, logIndex: nat, rootChain: string): nat {
    (blockNumber * LOG_INDEX_UNIT + logIndex) * CHAIN_ID_UNIT + RootChainId(rootChain)
  }

  /** Two events have the same sequence number exactly when their chains have the same ID and
      their log indices make up for the difference of their blocks. */
  lemma SameSequenceIff(b: nat, l: nat, c: string, b': nat, l': nat, c': string)
    ensures Sequence(b, l, c) == Sequence(b', l', c')
            <==> RootChainId(c) == RootChainId(c') && l - l' == (b' - b) * LOG_INDEX_UNIT
  {
  }

  /** So log indices below 100000 make it injective on the known chains. */
  lemma SequenceIsInjective(b: nat, l: nat, c: string, b': nat, l': nat, c': string)
    requires l < LOG_INDEX_UNIT && l' < LOG_INDEX_UNIT && Known(c) && Known(c')
    ensures Sequence(b, l, c) == Sequence(b', l', c') <==> b == b' && l == l' && c == c'
  {
    SameSequenceIff(b, l, c, b', l', c');
  }

  /** One more for the chain, a hundred for a log index, ten million for a block. */
  lemma SequenceSteps(b: nat, l: nat, c: string)
    ensures Sequence(b, l + 1, c) == Sequence(b, l, c) + 100
    ensures Sequence(b + 1, l, c) == Sequence(b, l, c) + 10_000_000
    ensures Sequence(0, 0, c) == if c == "tron" then 1 else if c == "eth" then 2 else if c == "bsc" then 3 else 0
  {
  }

  /** A log index of 100000 collides with the first event of the next block. */
  lemma SequencesCollide(b: nat, c: string)
    ensures Sequence(b, LOG_INDEX_UNIT, c) == Sequence(b + 1, 0, c)
  {
  }

  // ---------------------------------------------------------------- the log behind the store

  function PairOf(r: Record): Pair {
    (r.rootChain, r.id)
  }

  predicate RecordHolds(s: Store, log: seq<Record>, n: U64) {
    if 1 <= n <= |log| then n in s.records && s.records[n] == log[n - 1].(id := n) else n !in s.records
  }

  predicate PairHolds(s: Store, log: seq<Record>, p: Pair) {
    p in s.idMap ==> 1 <= s.idMap[p] <= |log| && PairOf(log[s.idMap[p] - 1]) == p
  }

  predicate EntryHolds(s: Store, log: seq<Record>, i: int) {
    0 <= i < |log| ==> Known(log[i].rootChain) && PairOf(log[i]) in s.idMap && s.idMap[PairOf(log[i])] == i + 1
  }

  /** A record of the log has the root chain, the time and the root ID. */
  ghost predicate RootTimed(log: seq<Record>, t: (string, int, U64)) {
    exists i :: 0 <= i < |log| && (log[i].rootChain, log[i].recordTime, log[i].id) == t
  }

  /** The store is that of the records `log`, as they were submitted, in this order. */
  ghost predicate Refines(s: Store, log: seq<Record>) {
    && s.latestId == |log|
    && (forall n: U64 :: RecordHolds(s, log, n))
    && (forall p: Pair :: PairHolds(s, log, p))
    && (forall i: int :: EntryHolds(s, log, i))
    && (forall t: (string, int, U64) :: t in s.rootTimes <==> RootTimed(log, t))
    && (forall t: (int, U64) :: t in s.times <==> 1 <= t.1 <= |log| && log[t.1 - 1].recordTime == t.0)
  }

  /** The record IDs are 1 to the latest, and the pairs of root chain and root ID correspond to
      them one to one. */
  lemma RenumberingIsBijective(s: Store, log: seq<Record>)
    requires Refines(s, log)
    ensures forall n: U64 :: n in s.records <==> 1 <= n <= s.latestId
    ensures forall p: Pair :: p in s.idMap ==> s.idMap[p] in s.records
    ensures forall p: Pair, q: Pair :: p in s.idMap && q in s.idMap && s.idMap[p] == s.idMap[q] ==> p == q
    ensures forall n: U64 :: n in s.records ==> exists p: Pair :: p in s.idMap && s.idMap[p] == n
  {
    forall n: U64
      ensures n in s.records <==> 1 <= n <= s.latestId
    {
      assert RecordHolds(s, log, n);
    }
    forall p: Pair | p in s.idMap
      ensures s.idMap[p] in s.records
    {
      assert PairHolds(s, log, p);
    }
    forall p: Pair, q: Pair | p in s.idMap && q in s.idMap && s.idMap[p] == s.idMap[q]
      ensures p == q
    {
      assert PairHolds(s, log, p) && PairHolds(s, log, q);
    }
    forall n: U64 | n in s.records
      ensures exists p: Pair :: p in s.idMap && s.idMap[p] == n
    {
      assert EntryHolds(s, log, n - 1);
      assert PairOf(log[n - 1]) in s.idMap;
    }
  }

  /** No pair is accepted twice. */
  lemma LogHasNoDuplicates(s: Store, log: seq<Record>, i: nat, j: nat)
    requires Refines(s, log) && i < j < |log|
    ensures PairOf(log[i]) != PairOf(log[j])
  {
    assert EntryHolds(s, log, i) && EntryHolds(s, log, j);
  }

  predicate Synced(s: Store, p: Pair) {
    p in s.idMap && s.idMap[p] in s.records
  }

  /** What GetRootChainEventRecord finds. */
  function RootRecord(s: Store, p: Pair): Option<Record> {
    if Synced(s, p) then Some(s.records[s.idMap[p]].(id := p.1)) else None
  }

  /** Reading by root chain and root ID gives back the record that was submitted. */
  lemma RootRecordIsSubmitted(s: Store, log: seq<Record>, r: Record)
    requires Refines(s, log)
    ensures RootRecord(s, PairOf(r)) == Some(r) <==> r in log
    ensures RootRecord(s, PairOf(r)).None? <==> forall i :: 0 <= i < |log| ==> PairOf(log[i]) != PairOf(r)
  {
    var p := PairOf(r);
    assert PairHolds(s, log, p);
    if p in s.idMap {
      assert RecordHolds(s, log, s.idMap[p]);
      assert RootRecord(s, p) == Some(log[s.idMap[p] - 1]);
    }
    forall i | 0 <= i < |log| && PairOf(log[i]) == p
      ensures RootRecord(s, p) == Some(log[i])
    {
      assert EntryHolds(s, log, i);
    }
  }

  /** The store with one more record. */
  function Extended(s: Store, r: Record, sequence: nat): Store
    requires s.latestId < MAX_UINT64
  {
    var n := s.latestId + 1;
    Store(s.records[n := r.(id := n)], s.idMap[PairOf(r) := n], n,
          s.rootTimes + {(r.rootChain, r.recordTime, r.id)}, s.times + {(r.recordTime, n)}, s.sequences + {sequence})
  }

  lemma MappedIsSynced(s: Store, log: seq<Record>, p: Pair)
    requires Refines(s, log)
    ensures p in s.idMap ==> Synced(s, p)
  {
    assert PairHolds(s, log, p);
    assert p in s.idMap ==> RecordHolds(s, log, s.idMap[p]);
  }

  /** A pair counts as synced exactly when a record with it has been accepted. */
  lemma SyncedIff(s: Store, log: seq<Record>, p: Pair)
    requires Refines(s, log)
    ensures Synced(s, p) <==> exists i :: 0 <= i < |log| && (log[i].rootChain, log[i].id) == p
  {
    assert PairHolds(s, log, p);
    MappedIsSynced(s, log, p);
    if i :| 0 <= i < |log| && (log[i].rootChain, log[i].id) == p {
      assert EntryHolds(s, log, i);
    }
  }

  /** A pair without a record is in none of the indices, so no key is written twice. */
  lemma NotSyncedIsNew(s: Store, log: seq<Record>, p: Pair)
    requires Refines(s, log) && !Synced(s, p)
    ensures p !in s.idMap
    ensures forall time :: (p.0, time, p.1) !in s.rootTimes
    ensures s.latestId < MAX_UINT64 ==> && s.latestId + 1 !in s.records
                                        && forall t :: t in s.times ==> t.1 != s.latestId + 1
  {
    MappedIsSynced(s, log, p);
    forall i | 0 <= i < |log|
      ensures (log[i].rootChain, log[i].id) in s.idMap
    {
      assert EntryHolds(s, log, i);
    }
    if s.latestId < MAX_UINT64 {
      assert RecordHolds(s, log, s.latestId + 1);
    }
  }

  lemma RootTimedStep(log: seq<Record>, r: Record, x: (string, int, U64))
    ensures RootTimed(log + [r], x) <==> RootTimed(log, x) || (r.rootChain, r.recordTime, r.id) == x
  {
    var now := log + [r];
    if RootTimed(log, x) {
      var i :| 0 <= i < |log| && (log[i].rootChain, log[i].recordTime, log[i].id) == x;
      assert (now[i].rootChain, now[i].recordTime, now[i].id) == x;
    }
    assert now[|log|] == r;
  }

  lemma ExtendRefines(s: Store, log: seq<Record>, r: Record, sequence: nat)
    requires Refines(s, log) && s.latestId < MAX_UINT64 && !Synced(s, PairOf(r)) && Known(r.rootChain)
    ensures Refines(Extended(s, r, sequence), log + [r])
  {
    var t, now := Extended(s, r, sequence), log + [r];
    NotSyncedIsNew(s, log, PairOf(r));
    forall n: U64
      ensures RecordHolds(t, now, n)
    {
      assert RecordHolds(s, log, n);
    }
    forall p: Pair
      ensures PairHolds(t, now, p)
    {
      assert PairHolds(s, log, p);
    }
    forall i: int
      ensures EntryHolds(t, now, i)
    {
      assert EntryHolds(s, log, i);
    }
    forall x: (string, int, U64)
      ensures x in t.rootTimes <==> RootTimed(now, x)
    {
      RootTimedStep(log, r, x);
    }
  }

  function RecordFrom(msg: MsgEventRecord, blockTime: int): Record {
    Record(msg.id, msg.txHash, msg.logIndex, msg.contract, msg.data, msg.chainId, blockTime, msg.rootChain)
  }

  class Keeper {
    var records: map<U64, Record>
    var idMap: map<Pair, U64>
    var latestId: U64
    var rootTimes: set<(string, int, U64)>
    var times: set<(int, U64)>
    var sequences: set<nat>
    /** The records accepted so far, as submitted. */
    ghost var log: seq<Record>

    ghost function Now(): Store
      reads this
    {
      Store(records, idMap, latestId, rootTimes, times, sequences)
    }

    ghost predicate Valid()
      reads this
    {
      Refines(Now(), log)
    }

    constructor ()
      ensures Valid() && log == []
    {
      records, idMap, latestId, rootTimes, times, sequences, log := map[], map[], 0, {}, {}, {}, [];
    }

    method HasRootChainEventRecord(rootChain: string, id: U64) returns (found: bool)
      ensures found == Synced(Now(), (rootChain, id))
      ensures Valid() ==> (found <==> exists i :: 0 <= i < |log| && (log[i].rootChain, log[i].id) == (rootChain, id))
    {
      if Valid() {
        SyncedIff(Now(), log, (rootChain, id));
      }
      if (rootChain, id) !in idMap {
        return false;
      }
      return idMap[(rootChain, id)] in records;
    }

    method GetRootChainEventRecord(id: U64, rootChain: string) returns (record: Option<Record>)
      requires Valid()
      ensures record == RootRecord(Now(), (rootChain, id))
      ensures record.Some? <==> exists i :: 0 <= i < |log| && PairOf(log[i]) == (rootChain, id)
      ensures record.Some? ==> record.value in log
    {
      ghost var sought := Record(id, 0, 0, 0, [], 0, 0, rootChain);
      RootRecordIsSubmitted(Now(), log, sought);
      if (rootChain, id) !in idMap {
        return None;
      }
      var heimdallId := idMap[(rootChain, id)];
      if heimdallId !in records {
        return None;
      }
      record := Some(records[heimdallId].(id := id));
      RootRecordIsSubmitted(Now(), log, record.value);
      assert PairHolds(Now(), log, (rootChain, id)) && RecordHolds(Now(), log, heimdallId);
    }

    method SetEventRecordWithID(record: Record) returns (ok: bool, before: U64)
      modifies this`records, this`idMap, this`latestId
      ensures before == old(latestId)
      ensures ok <==> PairOf(record) !in old(idMap) && WrapU64(before + 1) !in old(records)
      ensures ok ==> var n := WrapU64(before + 1);
                     && idMap == old(idMap)[PairOf(record) := n] && latestId == n
                     && records == old(records)[n := record.(id := n)]
    {
      before := latestId;
      if (record.rootChain, record.id) in idMap {
        return false, before;
      }
      idMap := idMap[(record.rootChain, record.id) := WrapU64(before as int + 1)];
      var renumbered := record.(id := WrapU64(before as int + 1));
      if renumbered.id in records {
        return false, before;
      }
      records := records[renumbered.id := renumbered];
      latestId := WrapU64(before as int + 1);
      return true, before;
    }

    method SetEventRecordWithTime(record: Record, before: U64) returns (ok: bool)
      modifies this`rootTimes, this`times
      ensures ok <==> && Known(record.rootChain)
                      && (record.rootChain, record.recordTime, record.id) !in old(rootTimes)
                      && (record.recordTime, WrapU64(before + 1)) !in old(times)
      ensures ok ==> && rootTimes == old(rootTimes) + {(record.rootChain, record.recordTime, record.id)}
                     && times == old(times) + {(record.recordTime, WrapU64(before + 1))}
    {
      if record.rootChain != "eth" && record.rootChain != "tron" && record.rootChain != "bsc" {
        return false;
      }
      if (record.rootChain, record.recordTime, record.id) in rootTimes {
        return false;
      }
      rootTimes := rootTimes + {(record.rootChain, record.recordTime, record.id)};
      var renumbered := WrapU64(before as int + 1);
      if (record.recordTime, renumbered) in times {
        return false;
      }
      times := times + {(record.recordTime, renumbered)};
      return true;
    }

    /** Both writes of the post-handler, undone when one of them is refused. */
    method StoreRecord(record: Record) returns (ok: bool)
      requires Valid() && latestId < MAX_UINT64 && !Synced(Now(), PairOf(record))
      modifies this`records, this`idMap, this`latestId, this`rootTimes, this`times
      ensures ok <==> Known(record.rootChain)
      ensures !ok ==> Now() == old(Now())
      ensures ok ==> Now() == Extended(old(Now()), record, 0).(sequences := sequences)
    {
      hide Refines, Synced, Known;
      NotSyncedIsNew(Now(), log, PairOf(record));
      var oldRecords, oldIds, oldLatest, oldRootTimes, oldTimes := records, idMap, latestId, rootTimes, times;
      var before;
      ok, before := SetEventRecordWithID(record);
      if ok {
        ok := SetEventRecordWithTime(record, before);
      }
      if !ok {
        records, idMap, latestId, rootTimes, times := oldRecords, oldIds, oldLatest, oldRootTimes, oldTimes;
      }
    }

    /** The post-handler; a refusal undoes what was written before it. */
    method PostHandleMsgEventRecord(msg: MsgEventRecord, vote: Vote, blockTime: int) returns (ok: bool)
      requires Valid() && latestId < MAX_UINT64
      modifies this
      ensures Valid()
      ensures ok <==> vote == Yes && Known(msg.rootChain) && !old(Synced(Now(), (msg.rootChain, msg.id)))
      ensures !ok ==> Now() == old(Now()) && log == old(log)
      ensures ok <==> && vote == Yes && msg.rootChain in {"tron", "eth", "bsc"}
                      && forall i :: 0 <= i < |old(log)| ==>
                           (old(log)[i].rootChain, old(log)[i].id) != (msg.rootChain, msg.id)
      ensures ok ==> log == old(log) + [Record(msg.id, msg.txHash, msg.logIndex, msg.contract, msg.data, msg.chainId,
                                          blockTime, msg.rootChain)]
      ensures ok ==> latestId == old(latestId) + 1
      ensures ok ==> sequences == old(sequences) + {Sequence(msg.blockNumber, msg.logIndex, msg.rootChain)}
    {
      hide Refines, Sequence, Synced, RootTimed;
      SyncedIff(Now(), log, (msg.rootChain, msg.id));
      if vote != Yes {
        return false;
      }
      var synced := HasRootChainEventRecord(msg.rootChain, msg.id);
      if synced {
        return false;
      }
      ghost var was := Now();
      var record := RecordFrom(msg, blockTime);
      ok := StoreRecord(record);
      if !ok {
        return;
      }
      sequences := sequences + {Sequence(msg.blockNumber, msg.logIndex, msg.rootChain)};
      ExtendRefines(was, log, record, Sequence(msg.blockNumber, msg.logIndex, msg.rootChain));
      log := log + [record];
    }

    method HandleMsgEventRecord(msg: MsgEventRecord, borChainId: nat) returns (ok: bool)
      ensures ok <==> && !Synced(Now(), (msg.rootChain, msg.id)) && msg.chainId == borChainId
                      && Sequence(msg.blockNumber, msg.logIndex, msg.rootChain) !in sequences
    {
      var synced := HasRootChainEventRecord(msg.rootChain, msg.id);
      if synced {
        return false;
      }
      if borChainId != msg.chainId {
        return false;
      }
      return Sequence(msg.blockNumber, msg.logIndex, msg.rootChain) !in sequences;
    }
  }
}
