/**
 * What happened to the table of a ResourceMgr, in order. The log is legal when every event agrees
 * with the table that the events before it left; the promises about LookupOrCreate are read off
 * legal logs.
 */
module ResourceLog {
  import opened ReferenceGraph

  datatype Event =
    | Created(key: Key, res: nat)                                // put into the table
    | Erased(key: Key, res: nat)                                 // taken out of the table
    | Obtained(thread: nat, key: Key, res: nat)                  // a caller got its reference
    | Returned(thread: nat, key: Key, res: nat, since: nat)      // the call that began at `since` succeeded

  ghost function After(table: map<Key, nat>, e: Event): map<Key, nat> {
    if e.Created? then table[e.key := e.res]
    else if e.Erased? then table - {e.key}
    else table
  }

  ghost function Table(log: seq<Event>): map<Key, nat> {
    if log == [] then map[] else After(Table(log[..|log| - 1]), log[|log| - 1])
  }

  ghost predicate ObtainedSince(log: seq<Event>, since: nat, thread: nat, key: Key, res: nat) {
    exists i :: since <= i < |log| && log[i] == Obtained(thread, key, res)
  }

  ghost predicate Agrees(log: seq<Event>, e: Event) {
    match e
    case Created(k, _) => k !in Table(log)
    case Erased(k, r) => k in Table(log) && Table(log)[k] == r
    case Obtained(_, k, r) => k in Table(log) && Table(log)[k] == r
    case Returned(t, k, r, since) => since <= |log| && ObtainedSince(log, since, t, k, r)
  }

  ghost predicate Legal(log: seq<Event>) {
    log == [] || (Legal(log[..|log| - 1]) && Agrees(log[..|log| - 1], log[|log| - 1]))
  }

  lemma LegalAppend(log: seq<Event>, e: Event)
    requires Legal(log) && Agrees(log, e)
    ensures Legal(log + [e])
    ensures Table(log + [e]) == After(Table(log), e)
  {
    assert (log + [e])[..|log|] == log;
  }

  lemma {:induction false} LegalPrefix(log: seq<Event>, n: nat)
    requires Legal(log) && n <= |log|
    ensures Legal(log[..n])
    ensures n < |log| ==> Agrees(log[..n], log[n])
  {
    if n < |log| {
      var shorter := log[..|log| - 1];
      if n < |log| - 1 {
        LegalPrefix(shorter, n);
        assert shorter[..n] == log[..n];
      }
    } else {
      assert log[..n] == log;
    }
  }

  ghost predicate NotErased(log: seq<Event>, from: nat, to: nat, key: Key)
    requires to <= |log|
  {
    forall m :: from <= m < to ==> !(log[m].Erased? && log[m].key == key)
  }

  /** What is in the table stays there until it is erased. */
  lemma {:induction false} TableStays(log: seq<Event>, from: nat, to: nat, key: Key)
    requires Legal(log) && from <= to <= |log|
    requires key in Table(log[..from]) && NotErased(log, from, to, key)
    ensures key in Table(log[..to]) && Table(log[..to])[key] == Table(log[..from])[key]
  {
    if from < to {
      TableStays(log, from, to - 1, key);
      LegalPrefix(log, to - 1);
      assert log[..to][..to - 1] == log[..to - 1];
    }
  }

  /** Between two creations under one key there is a deletion. */
  lemma AtMostOneCreation(log: seq<Event>, i: nat, j: nat, key: Key)
    requires Legal(log) && i < j < |log|
    requires log[i].Created? && log[j].Created? && log[i].key == log[j].key == key
    ensures exists m :: i < m < j && log[m].Erased? && log[m].key == key
  {
    if NotErased(log, i + 1, j, key) {
      assert log[..i + 1][..i] == log[..i];
      assert key in Table(log[..i + 1]);
      TableStays(log, i + 1, j, key);
      LegalPrefix(log, j);
      assert false;
    }
  }

  /** Two callers that obtained a resource under one key with no deletion in between obtained the same one. */
  lemma SameObject(log: seq<Event>, i: nat, j: nat, key: Key)
    requires Legal(log) && i <= j < |log|
    requires log[i].Obtained? && log[j].Obtained? && log[i].key == log[j].key == key
    requires NotErased(log, i, j, key)
    ensures log[i].res == log[j].res
  {
    LegalPrefix(log, i);
    LegalPrefix(log, j);
    TableStays(log, i, j, key);
  }

  /**
   * Two successful calls with no deletion between the beginning of the earlier and the end of the
   * later return the same object.
   */
  lemma SameObjectReturned(log: seq<Event>, i: nat, j: nat, key: Key)
    requires Legal(log) && i <= j < |log|
    requires log[i].Returned? && log[j].Returned? && log[i].key == log[j].key == key
    requires NotErased(log, if log[i].since <= log[j].since then log[i].since else log[j].since, j, key)
    ensures log[i].res == log[j].res
  {
    LegalPrefix(log, i);
    LegalPrefix(log, j);
    var a :| log[i].since <= a < i && log[..i][a] == Obtained(log[i].thread, key, log[i].res);
    var b :| log[j].since <= b < j && log[..j][b] == Obtained(log[j].thread, key, log[j].res);
    if a <= b {
      SameObject(log, a, b, key);
    } else {
      SameObject(log, b, a, key);
    }
  }
}
