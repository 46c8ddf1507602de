/** The class of src/redis/backend.ts, as far as it decides what a getter ends
    with: the synchronous stretches of `get` and `onMessage`. */
module RedisBackends {
  import opened Wrappers
  import opened Promises
  import M = PromiseMapModel
  import opened PromiseMaps
  import opened RedisModel

  const PREFIX: string := "celery-task-meta-"

  /** `UUID_REGEX` on a channel name. */
  function MatchId(channel: string): Option<TaskId> {
    if |channel| >= |PREFIX| && channel[..|PREFIX|] == PREFIX && IsUuid(channel[|PREFIX|..])
    then Some(channel[|PREFIX|..]) else None
  }

  ghost predicate HexWord(w: string, n: nat) {
    |w| == n && forall i :: 0 <= i < n ==> w[i] in "0123456789abcdefABCDEF"
  }

  ghost predicate DashedAs(id: string, a: string, b: string, c: string, d: string, e: string) {
    && HexWord(a, 8) && HexWord(b, 4) && HexWord(c, 4) && HexWord(d, 4) && HexWord(e, 12)
    && id == a + "-" + b + "-" + c + "-" + d + "-" + e
  }

  /** Five words of hexadecimal digits with dashes between them. */
  ghost predicate Dashed(id: string) {
    exists a, b, c, d, e :: DashedAs(id, a, b, c, d, e)
  }

  lemma HexIff(c: char)
    ensures IsHex(c) <==> c in "0123456789abcdefABCDEF"
  {
  }

  lemma HexPart(id: string, i: nat, n: nat)
    requires i + n <= |id| && forall k :: i <= k < i + n ==> IsHex(id[k])
    ensures HexWord(id[i..i + n], n)
  {
    var w := id[i..i + n];
    forall k | 0 <= k < n
      ensures w[k] in "0123456789abcdefABCDEF"
    {
      HexIff(id[i + k]);
    }
  }

  lemma SplitUuid(id: string)
    requires IsUuid(id)
    ensures DashedAs(id, id[..8], id[9..13], id[14..18], id[19..23], id[24..])
  {
    HexPart(id, 0, 8);
    HexPart(id, 9, 4);
    HexPart(id, 14, 4);
    HexPart(id, 19, 4);
    HexPart(id, 24, 12);
    assert id[24..36] == id[24..] && id[0..8] == id[..8];
    assert id[8] == '-' && id[13] == '-' && id[18] == '-' && id[23] == '-';
    JoinSlices(id);
  }

  lemma JoinSlices(id: string)
    requires |id| == 36 && id[8] == '-' && id[13] == '-' && id[18] == '-' && id[23] == '-'
    ensures id == id[..8] + "-" + id[9..13] + "-" + id[14..18] + "-" + id[19..23] + "-" + id[24..]
  {
    assert id[..8] + "-" == id[..9] && id[..9] + id[9..13] == id[..13] && id[..13] + "-" == id[..14];
    assert id[..14] + id[14..18] == id[..18] && id[..18] + "-" == id[..19];
    assert id[..19] + id[19..23] == id[..23] && id[..23] + "-" == id[..24];
  }

  lemma HexAt(w: string, n: nat, i: nat)
    requires HexWord(w, n) && i < n
    ensures IsHex(w[i])
  {
    HexIff(w[i]);
  }

  lemma JoinUuid(id: string, a: string, b: string, c: string, d: string, e: string)
    requires DashedAs(id, a, b, c, d, e)
    ensures IsUuid(id)
  {
    assert |id| == 36;
    forall i | 0 <= i < 36
      ensures if i in {8, 13, 18, 23} then id[i] == '-' else IsHex(id[i])
    {
      if i < 8 {
        HexAt(a, 8, i);
      } else if 8 < i < 13 {
        HexAt(b, 4, i - 9);
      } else if 13 < i < 18 {
        HexAt(c, 4, i - 14);
      } else if 18 < i < 23 {
        HexAt(d, 4, i - 19);
      } else if 23 < i {
        HexAt(e, 12, i - 24);
      }
    }
  }

  lemma UuidIff(id: string)
    ensures IsUuid(id) <==> Dashed(id)
  {
    if IsUuid(id) {
      SplitUuid(id);
    }
    if a, b, c, d, e :| DashedAs(id, a, b, c, d, e) {
      JoinUuid(id, a, b, c, d, e);
    }
  }

  /** The pattern accepts the prefixed UUIDs and nothing else, and recovers the
      id. */
  lemma MatchIdIff(channel: string, id: TaskId)
    ensures MatchId(channel) == Some(id) <==> channel == "celery-task-meta-" + id && Dashed(id)
  {
    UuidIff(id);
    if channel == PREFIX + id {
      assert channel[|PREFIX|..] == id && channel[..|PREFIX|] == PREFIX;
    }
    if MatchId(channel) == Some(id) {
      assert channel == channel[..|PREFIX|] + channel[|PREFIX|..];
    }
  }

  /** A call of `get` is answered at once, listens to a promise of the map, or
      has to ask Redis. */
  datatype Answer = Result(payload: Payload) | Listen(promise: M.Pid) | Ask

  class RedisBackend {
    const results: PromiseMap<TaskId, Payload>

    ghost predicate Valid()
      reads this, results
    {
      results.Valid()
    }

    constructor ()
      ensures Valid() && fresh(results) && results.Abs() == Init().results
      ensures results.hasTimeout && results.promises == map[] && results.data == map[]
    {
      results := new PromiseMap<TaskId, Payload>(true);
    }

    /** `get` up to its first await. */
    method StartGet(taskId: TaskId) returns (answer: Answer)
      requires Valid()
      modifies results
      ensures Valid()
      ensures if taskId in old(results.promises)
        then && answer == Listen(old(results.promises)[taskId])
             && results.Abs() == M.Step(old(results.Abs()), M.DoGet(taskId))
        else answer == Ask && results.Abs() == old(results.Abs())
    {
      var has := results.Has(taskId);
      if has {
        var promise := results.GetPromise(taskId);
        results.Tick();
        answer := Listen(promise);
      } else {
        answer := Ask;
      }
    }

    /** The continuation of `get` with the reply to GET. */
    method HandleReply(taskId: TaskId, raw: Option<Payload>) returns (answer: Answer)
      requires Valid()
      modifies results
      ensures Valid()
      ensures if raw.Some? && raw.value.success
        then answer == Result(raw.value) && results.Abs() == old(results.Abs())
        else && answer == Listen(M.Get(old(results.Abs()), taskId).1)
             && results.Abs() == M.Step(old(results.Abs()), M.DoGet(taskId))
    {
      if raw == None || !raw.value.success {
        var promise := results.GetPromise(taskId);
        results.Tick();
        answer := Listen(promise);
      } else {
        answer := Result(raw.value);
      }
    }

    /** `onMessage(channel, message)`; `handled` is false when it throws. */
    method OnMessage(channel: string, message: Payload) returns (handled: bool)
      requires Valid()
      modifies results
      ensures Valid()
      ensures handled <==> exists id :: channel == "celery-task-meta-" + id && Dashed(id)
      ensures !handled ==> results.Abs() == old(results.Abs())
      ensures forall id :: channel == "celery-task-meta-" + id && Dashed(id) ==>
        results.Abs() == M.Step(old(results.Abs()), M.DoResolve(id, M.Plain(message)))
    {
      ghost var before := results.Abs();
      var maybeId := MatchId(channel);
      forall id
        ensures maybeId == Some(id) <==> channel == "celery-task-meta-" + id && Dashed(id)
      {
        MatchIdIff(channel, id);
      }
      if maybeId == None {
        return false;
      }
      var _ := results.Resolve(maybeId.value, M.Plain(message));
      results.Tick();
      handled := true;
    }
  }
}
