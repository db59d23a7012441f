/**
 * The bot's bounded response cache and the two places it is used: storing
 * each answered question under the id of the answer message, and recovering
 * that run's context when the "show sources" reaction arrives.
 *
 * `DictQueue` keeps `(message id, response)` pairs newest first. A write
 * always pushes a new pair to the front and drops the back pair when the
 * list is over `maxlen`; a read returns the front-most match. Nothing is ever
 * updated in place or moved on read, and a key written twice holds two
 * slots: a bounded FIFO of writes, not an LRU map.
 */
module DiscordBot {
  import opened Wrappers
  import opened Documents
  import Generate

  /** Capacity of the bot's module-level cache. */
  const CACHE_MAXLEN := 5

  /** The number of pairs a `maxlen` lets the list keep: a `maxlen` below one keeps none. */
  function Capacity(maxlen: int): nat {
    if maxlen < 0 then 0 else maxlen
  }

  /** The response of the front-most pair with `key`, or none (the source's `{}`). */
  function Lookup<K(==), V>(entries: seq<(K, V)>, key: K): (r: Option<V>)
    ensures r.None? <==> forall i | 0 <= i < |entries| :: entries[i].0 != key
    ensures r.Some? ==>
      exists i | 0 <= i < |entries| ::
        && entries[i] == (key, r.value)
        && forall j | 0 <= j < i :: entries[j].0 != key
  {
    if entries == [] then None
    else if entries[0].0 == key then Some(entries[0].1)
    else
      var r := Lookup(entries[1..], key);
      assert forall i | 1 <= i < |entries| :: entries[i] == entries[1..][i - 1];
      r
  }

  /** The first match wins: a pair with `key` preceded by none decides the lookup. */
  lemma LookupFirstMatch<K, V>(entries: seq<(K, V)>, key: K, i: nat)
    requires i < |entries| && entries[i].0 == key
    requires forall j | 0 <= j < i :: entries[j].0 != key
    ensures Lookup(entries, key) == Some(entries[i].1)
  {
  }

  /**
   * The list after writing `(key, value)`: the new pair in front of all the
   * old ones, and the back pair dropped when that is more than `maxlen`.
   */
  function Pushed<K, V>(entries: seq<(K, V)>, key: K, value: V, maxlen: int): (r: seq<(K, V)>)
    ensures |entries| < maxlen ==> |r| == |entries| + 1
    ensures |entries| >= maxlen ==> |r| == |entries|
    ensures maxlen >= 1 ==> r != []
    ensures r != [] ==> r[0] == (key, value)
    ensures forall i | 1 <= i < |r| :: r[i] == entries[i - 1]
  {
    var grown := [(key, value)] + entries;
    if |grown| > maxlen then grown[..|grown| - 1] else grown
  }

  class DictQueue<K(==), V> {
    /** The pairs, newest first. */
    var list: seq<(K, V)>
    var maxlen: int

    ghost predicate Valid()
      reads this
    {
      |list| <= Capacity(maxlen)
    }

    /** An empty cache keeping at most `maxlen` pairs, five unless said otherwise. */
    constructor (maxlen: int := 5)
      ensures Valid()
      ensures list == [] && this.maxlen == maxlen
    {
      list := [];
      this.maxlen := maxlen;
    }

    /** A read: scan from the front for the first pair with `key`. */
    method Get(key: K) returns (r: Option<V>)
      ensures r == Lookup(list, key)
      ensures r.None? <==> forall i | 0 <= i < |list| :: list[i].0 != key
      ensures r.Some? ==>
        exists i | 0 <= i < |list| ::
          && list[i] == (key, r.value)
          && forall j | 0 <= j < i :: list[j].0 != key
    {
      for i := 0 to |list|
        invariant forall j | 0 <= j < i :: list[j].0 != key
      {
        if list[i].0 == key {
          LookupFirstMatch(list, key, i);
          return Some(list[i].1);
        }
      }
      return None;
    }

    /** A write: it never looks for an older pair with the same key. */
    method Put(key: K, value: V)
      modifies this
      ensures maxlen == old(maxlen)
      ensures list == Pushed(old(list), key, value, maxlen)
      ensures old(Valid()) ==> Valid()
    {
      list := [(key, value)] + list;
      if |list| > maxlen {
        list := list[..|list| - 1];
      }
    }
  }

  // ---------------------------------------------------------------------------
  // Properties of one write

  /** A write keeps the list within capacity, and a key already present still takes a slot of its own. */
  lemma PushedLength<K, V>(entries: seq<(K, V)>, key: K, value: V, maxlen: int)
    requires |entries| <= Capacity(maxlen)
    ensures |Pushed(entries, key, value, maxlen)| <= Capacity(maxlen)
    ensures |Pushed(entries, key, value, maxlen)|
         == if |entries| < Capacity(maxlen) then |entries| + 1 else Capacity(maxlen)
  {
  }

  /** With room for one pair, a read right after a write returns what was written. */
  lemma PutThenGet<K, V>(entries: seq<(K, V)>, key: K, value: V, maxlen: int)
    requires maxlen >= 1
    ensures Lookup(Pushed(entries, key, value, maxlen), key) == Some(value)
  {
  }

  /**
   * Below capacity a write only adds the new pair in front. At capacity it
   * also removes exactly the back (oldest) pair; the others keep their order.
   */
  lemma PushedKeepsOlder<K, V>(entries: seq<(K, V)>, key: K, value: V, maxlen: int)
    requires |entries| <= Capacity(maxlen) && maxlen >= 1
    ensures |entries| < maxlen ==> Pushed(entries, key, value, maxlen) == [(key, value)] + entries
    ensures |entries| == maxlen ==>
      Pushed(entries, key, value, maxlen) == [(key, value)] + entries[..|entries| - 1]
  {
  }

  /** An older pair with the same key survives a write untouched, behind the new one. */
  lemma OlderDuplicateKept<K, V>(entries: seq<(K, V)>, key: K, value: V, maxlen: int, i: nat)
    requires i < |entries| && entries[i].0 == key
    requires i + 1 < Capacity(maxlen)
    ensures var after := Pushed(entries, key, value, maxlen);
      i + 1 < |after| && after[i + 1] == entries[i] && after[0] == (key, value)
  {
  }

  /** A read of a key that no pair holds finds nothing. */
  lemma AbsentKeyMisses<K, V>(entries: seq<(K, V)>, key: K)
    requires forall i | 0 <= i < |entries| :: entries[i].0 != key
    ensures Lookup(entries, key) == None
  {
  }

  // ---------------------------------------------------------------------------
  // Properties of a history of writes

  /** The list after writing `writes` (oldest first) into an empty cache. */
  function Replay<K, V>(writes: seq<(K, V)>, maxlen: int): seq<(K, V)> {
    if writes == [] then []
    else
      var last := writes[|writes| - 1];
      Pushed(Replay(writes[..|writes| - 1], maxlen), last.0, last.1, maxlen)
  }

  function Reverse<T>(s: seq<T>): (r: seq<T>)
    ensures |r| == |s|
    ensures forall i | 0 <= i < |s| :: r[i] == s[|s| - 1 - i]
  {
    if s == [] then [] else [s[|s| - 1]] + Reverse(s[..|s| - 1])
  }

  function Min(a: nat, b: nat): nat {
    if a < b then a else b
  }

  /** The cache always holds exactly the last `Capacity(maxlen)` writes, newest first. */
  lemma {:induction false} ReplayKeepsNewest<K, V>(writes: seq<(K, V)>, maxlen: int)
    ensures Replay(writes, maxlen) == Reverse(writes)[..Min(Capacity(maxlen), |writes|)]
  {
    if writes != [] {
      var front := writes[..|writes| - 1];
      var last := writes[|writes| - 1];
      ReplayKeepsNewest(front, maxlen);
      assert Reverse(writes) == [last] + Reverse(front);
    }
  }

  /** Six distinct keys written into a cache of five: the first is gone, the other five remain. */
  lemma SixKeysEvictFirst<V>(k: seq<int>, v: seq<V>)
    requires |k| == 6 && |v| == 6
    requires forall i, j | 0 <= i < j < 6 :: k[i] != k[j]
    ensures var cache := Replay(seq(6, i requires 0 <= i < 6 => (k[i], v[i])), CACHE_MAXLEN);
      && Lookup(cache, k[0]) == None
      && forall i | 1 <= i < 6 :: Lookup(cache, k[i]) == Some(v[i])
  {
    var writes := seq(6, i requires 0 <= i < 6 => (k[i], v[i]));
    ReplayKeepsNewest(writes, CACHE_MAXLEN);
    var cache := Replay(writes, CACHE_MAXLEN);
    assert |cache| == 5;
    assert forall j | 0 <= j < 5 :: cache[j] == writes[5 - j];
    AbsentKeyMisses(cache, k[0]);
    forall i | 1 <= i < 6 ensures Lookup(cache, k[i]) == Some(v[i]) {
      LookupFirstMatch(cache, k[i], 5 - i);
    }
  }

  /** Writing `k1, k2, k1` into a cache of five: the later `k1` wins and all three writes hold a slot. */
  lemma DuplicateKeyScenario<V>(k1: int, k2: int, v1: V, v2: V, v3: V)
    requires k1 != k2
    ensures var cache := Replay([(k1, v1), (k2, v2), (k1, v3)], CACHE_MAXLEN);
      && |cache| == 3
      && Lookup(cache, k1) == Some(v3)
      && Lookup(cache, k2) == Some(v2)
      && cache[2] == (k1, v1)
  {
    var writes := [(k1, v1), (k2, v2), (k1, v3)];
    ReplayKeepsNewest(writes, CACHE_MAXLEN);
  }

  // ---------------------------------------------------------------------------
  // The cache in the bot

  /** The bot's module-level cache, created with a `maxlen` of five. */
  method NewCache() returns (cache: DictQueue<int, Generate.State>)
    ensures fresh(cache) && cache.Valid()
    ensures cache.list == [] && cache.maxlen == CACHE_MAXLEN
  {
    cache := new DictQueue(CACHE_MAXLEN);
  }

  /**
   * How `!askchima` ends: the answer posted as the message with id
   * `messageId`; the answer message refused by Discord (its send raised, so
   * the command stopped there); or the backend error when the graph stopped.
   */
  datatype AskReply =
    | AnswerPosted(text: string, messageId: int)
    | AnswerNotSent(text: string)
    | BackendError(error: Generate.PipelineError)

  /** The answer a run shows: its `answer`, or the placeholder `"(no answer)"` when it has none. */
  function ShownAnswer(s: Generate.State): (r: string)
    ensures s.answer.Some? ==> r == s.answer.value
    ensures s.answer.None? ==> r == "(no answer)"
  {
    s.answer.GetOr("(no answer)")
  }

  /** The text of the answer message: a bold label, then the shown answer. */
  function AnswerMessage(s: Generate.State): (r: string)
    ensures |r| == |"**Answer:** "| + |ShownAnswer(s)|
    ensures r[..|"**Answer:** "|] == "**Answer:** "
    ensures r[|"**Answer:** "|..] == ShownAnswer(s)
  {
    "**Answer:** " + ShownAnswer(s)
  }

  /** A completed run always carries an answer, so the placeholder is never shown. */
  lemma AnswerAlwaysPresent(services: Generate.Services, question: string)
    ensures Generate.Invoke(services, question).Success? ==>
      Generate.Invoke(services, question).value.answer.Some?
  {
    Generate.InvokeSequence(services, question);
  }

  /**
   * `!askchima`: run the graph; on success send the answer and, once Discord
   * has accepted it, store the whole final state under the new message's id;
   * on failure post the error and store nothing. `send(text)` is the id
   * Discord gives the posted message, or none when the send raises.
   */
  method AskChima(cache: DictQueue<int, Generate.State>, services: Generate.Services, question: string,
                  send: string -> Option<int>)
    returns (reply: AskReply)
    modifies cache
    ensures cache.maxlen == old(cache.maxlen)
    ensures match Generate.Invoke(services, question)
      case Failure(e) => reply == BackendError(e) && cache.list == old(cache.list)
      case Success(s) =>
        match send(AnswerMessage(s))
        case None => reply == AnswerNotSent(AnswerMessage(s)) && cache.list == old(cache.list)
        case Some(id) =>
          && reply == AnswerPosted(AnswerMessage(s), id)
          && cache.list == Pushed(old(cache.list), id, s, cache.maxlen)
    ensures old(cache.Valid()) ==> cache.Valid()
  {
    match Generate.Invoke(services, question)
    case Failure(e) =>
      reply := BackendError(e);
    case Success(result) =>
      var text := AnswerMessage(result);
      match send(text)
      case None =>
        reply := AnswerNotSent(text);
      case Some(id) =>
        reply := AnswerPosted(text, id);
        cache.Put(id, result);
  }

  /** What the "show sources" reaction produces. */
  datatype SourcesReply = TooOld | Sources(docs: seq<Doc>)

  /**
   * The "show sources" reaction on message `messageId`: the context stored
   * for it, or the "too old" reply when the cache no longer holds it.
   */
  method ShowSources(cache: DictQueue<int, Generate.State>, messageId: int) returns (reply: SourcesReply)
    ensures reply == match Lookup(cache.list, messageId)
      case None => TooOld
      case Some(state) => Sources(state.context.GetOr([]))
    ensures reply.TooOld? <==> forall i | 0 <= i < |cache.list| :: cache.list[i].0 != messageId
    ensures reply.Sources? ==>
      exists i | 0 <= i < |cache.list| ::
        && cache.list[i].0 == messageId
        && reply.docs == cache.list[i].1.context.GetOr([])
        && forall j | 0 <= j < i :: cache.list[j].0 != messageId
  {
    var data := cache.Get(messageId);
    match data
    case None =>
      reply := TooOld;
    case Some(state) =>
      reply := Sources(state.context.GetOr([]));
  }

  /**
   * Right after a `!askchima` whose answer was posted, the reaction on that
   * answer message shows the context the answer was generated from. There is
   * nothing to react to when no answer was posted.
   */
  method AskThenShowSources(cache: DictQueue<int, Generate.State>, services: Generate.Services, question: string,
                            send: string -> Option<int>)
    returns (posted: AskReply, shown: Option<SourcesReply>)
    requires cache.maxlen >= 1
    modifies cache
    ensures cache.maxlen == old(cache.maxlen)
    ensures posted.AnswerPosted? <==> shown.Some?
    ensures posted.AnswerPosted? ==>
      && Generate.Invoke(services, question).Success?
      && shown == Some(Sources(Generate.Invoke(services, question).value.context.GetOr([])))
      && cache.list == Pushed(old(cache.list), posted.messageId, Generate.Invoke(services, question).value, cache.maxlen)
    ensures !posted.AnswerPosted? ==> cache.list == old(cache.list)
  {
    posted := AskChima(cache, services, question, send);
    if posted.AnswerPosted? {
      PutThenGet(old(cache.list), posted.messageId, Generate.Invoke(services, question).value, cache.maxlen);
      var reply := ShowSources(cache, posted.messageId);
      shown := Some(reply);
    } else {
      shown := None;
    }
  }
}
