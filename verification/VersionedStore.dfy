/**
The document store that the task service, the leader lock and the recurring-task service share:
documents under keys, each write stamped with a version that is never used again, and writes that
are conditional on the version the writer has seen (Elasticsearch's `if_seq_no`/`if_primary_term`).

A version is the position of the write in an append-only log, so it stands for the pair
(`_seq_no`, `_primary_term`). Each log entry also records which version the write replaced, as
seen by the store at that moment, and what the writer says caused it.
*/
module VersionedStore {
  import opened Wrappers

  type Version = nat

  datatype Entry<K, D, L> = Entry(key: K, doc: D, replaced: Option<Version>, cause: L)

  datatype Store<K(==), D, L> = Store(log: seq<Entry<K, D, L>>, live: map<K, Version>)

  /** What happens to one request on its way: handled (with either status for an absent document),
      dropped before it takes effect, or handled with the answer lost. */
  datatype Fate = Served(absentIsMissing: bool) | Dropped | AckLost

  /** What the client sees: 2xx, 409, 404, or any other failure. */
  datatype Reply = Committed(version: Version) | Conflict | Missing | Errored

  function Empty<K, D, L>(): Store<K, D, L> { Store([], map[]) }

  /** The live document under k is the one written as version v. */
  predicate Holds<K, D, L>(s: Store<K, D, L>, k: K, v: Version) { k in s.live && s.live[k] == v }

  /** Nothing was written under k at versions strictly between v and end. */
  ghost predicate QuietBetween<K, D, L>(s: Store<K, D, L>, k: K, v: Version, end: nat)
    requires end <= |s.log|
  {
    forall u :: v < u < end ==> s.log[u].key != k
  }

  ghost predicate LiveOk<K, D, L>(s: Store<K, D, L>, k: K)
    requires k in s.live
  {
    s.live[k] < |s.log| && s.log[s.live[k]].key == k && QuietBetween(s, k, s.live[k], |s.log|)
  }

  ghost predicate ChainOk<K, D, L>(s: Store<K, D, L>, v: Version)
    requires v < |s.log|
  {
    match s.log[v].replaced
    case None => true
    case Some(p) => p < v && s.log[p].key == s.log[v].key && QuietBetween(s, s.log[v].key, p, v)
  }

  /** Live documents are the latest writes of their keys, and a write that replaced version p is the
      next write of that key after p. */
  ghost predicate Valid<K, D, L>(s: Store<K, D, L>) {
    && (forall k :: k in s.live ==> LiveOk(s, k))
    && (forall v :: 0 <= v < |s.log| ==> ChainOk(s, v))
  }

  /** An unconditional write. */
  function Put<K, D, L>(s: Store<K, D, L>, k: K, d: D, cause: L): Store<K, D, L> {
    var replaced := if k in s.live then Some(s.live[k]) else None;
    Store(s.log + [Entry(k, d, replaced, cause)], s.live[k := |s.log|])
  }

  /** The create API: write only if there is no document under k. */
  function CreateIf<K, D, L>(s: Store<K, D, L>, k: K, d: D, cause: L, fate: Fate): (Store<K, D, L>, Reply) {
    if fate.Dropped? then (s, Errored)
    else if k in s.live then (s, if fate.AckLost? then Errored else Conflict)
    else (Put(s, k, d, cause), if fate.AckLost? then Errored else Committed(|s.log|))
  }

  /** The index API with optimistic locking: write only if version v is the live one under k. */
  function IndexIf<K, D, L>(s: Store<K, D, L>, k: K, v: Version, d: D, cause: L, fate: Fate): (Store<K, D, L>, Reply) {
    if fate.Dropped? then (s, Errored)
    else if Holds(s, k, v) then (Put(s, k, d, cause), if fate.AckLost? then Errored else Committed(|s.log|))
    else (s, Refusal(k in s.live, fate))
  }

  /** The delete operation with optimistic locking. */
  function DeleteIf<K, D, L>(s: Store<K, D, L>, k: K, v: Version, fate: Fate): (Store<K, D, L>, Reply) {
    if fate.Dropped? then (s, Errored)
    else if Holds(s, k, v) then (s.(live := s.live - {k}), if fate.AckLost? then Errored else Committed(v))
    else (s, Refusal(k in s.live, fate))
  }

  function Refusal(present: bool, fate: Fate): Reply {
    if fate.AckLost? then Errored
    else if !present && fate.Served? && fate.absentIsMissing then Missing
    else Conflict
  }

  /** What a client may conclude from the answer to a conditional write. */
  lemma IndexOutcome<K, D, L>(s: Store<K, D, L>, k: K, v: Version, d: D, cause: L, fate: Fate)
    ensures var (s', reply) := IndexIf(s, k, v, d, cause, fate);
      && |s.log| <= |s'.log| <= |s.log| + 1
      && (reply.Committed? ==>
            && reply.version == |s.log| && |s'.log| == |s.log| + 1
            && Holds(s', k, reply.version) && s'.log[reply.version].doc == d)
      && (reply.Conflict? || reply.Missing? ==> s' == s && !Holds(s, k, v))
      && (|s'.log| == |s.log| ==> s' == s)
  {
  }

  lemma PutKeepsValid<K, D, L>(s: Store<K, D, L>, k: K, d: D, cause: L)
    requires Valid(s)
    ensures Valid(Put(s, k, d, cause))
  {
    var t := Put(s, k, d, cause);
    forall j | j in t.live
      ensures LiveOk(t, j)
    {
      if j != k { assert LiveOk(s, j); }
    }
    forall v | 0 <= v < |t.log|
      ensures ChainOk(t, v)
    {
      if v < |s.log| {
        assert ChainOk(s, v);
      } else if k in s.live {
        assert LiveOk(s, k);
      }
    }
  }

  lemma DeleteKeepsValid<K, D, L>(s: Store<K, D, L>, k: K)
    requires Valid(s)
    ensures Valid(s.(live := s.live - {k}))
  {
    var t := s.(live := s.live - {k});
    forall j | j in t.live
      ensures LiveOk(t, j)
    {
      assert LiveOk(s, j);
    }
    forall v | 0 <= v < |t.log|
      ensures ChainOk(t, v)
    {
      assert ChainOk(s, v);
    }
  }

  /** Of all the writers that hold the same version, at most one ever commits. */
  lemma SingleWinner<K, D, L>(s: Store<K, D, L>, p: Version, v: Version, w: Version)
    requires Valid(s) && v < |s.log| && w < |s.log|
    requires s.log[v].replaced == Some(p) && s.log[w].replaced == Some(p)
    ensures v == w
  {
    assert ChainOk(s, v) && ChainOk(s, w);
  }
}
