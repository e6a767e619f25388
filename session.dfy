/**
 * A thread's life with the interceptor: a sequence of intercepted calls run
 * one after another against the same slot and the same log. The slot is
 * never reset between calls except by a successful exit hook, so what one
 * call leaves behind is seen by the next.
 */
module Session {
  import opened Wrappers
  import opened Domain
  import opened Aspect

  /** The state after running `calls` in order from `c`. */
  function Run(c: Context, calls: seq<Call>, serialize: Serializer): (d: Context)
    decreases |calls|
  {
    if calls == [] then c else Run(InvokeStep(c, calls[0], serialize), calls[1..], serialize)
  }

  /** How many of `calls` leave a row in the log. */
  function RecordedCount(calls: seq<Call>, serialize: Serializer): (n: nat)
    ensures n <= |calls|
    decreases |calls|
  {
    if calls == [] then 0
    else (if Recorded(calls[0], serialize) then 1 else 0) + RecordedCount(calls[1..], serialize)
  }

  /**
   * The log is append-only: whatever it held before is a prefix of what it
   * holds after, and it grew by exactly one row per recorded call.
   */
  lemma {:induction false} AppendOnly(c: Context, calls: seq<Call>, serialize: Serializer)
    ensures c.log <= Run(c, calls, serialize).log
    ensures |Run(c, calls, serialize).log| == |c.log| + RecordedCount(calls, serialize)
    decreases |calls|
  {
    if calls != [] {
      var c' := InvokeStep(c, calls[0], serialize);
      AppendOnly(c', calls[1..], serialize);
    }
  }

  /** A run in which no operation returned normally adds no rows at all. */
  lemma {:induction false} NoRowWithoutReturn(c: Context, calls: seq<Call>, serialize: Serializer)
    requires forall i :: 0 <= i < |calls| ==> !calls[i].returned
    ensures Run(c, calls, serialize).log == c.log
    decreases |calls|
  {
    if calls != [] {
      NoRowWithoutReturn(InvokeStep(c, calls[0], serialize), calls[1..], serialize);
    }
  }

  /**
   * The slot only ever holds the Post argument of some call of the run, or
   * the value it held before the run: a stale value is an earlier argument.
   */
  lemma {:induction false} SlotProvenance(c: Context, calls: seq<Call>, serialize: Serializer)
    ensures var s := Run(c, calls, serialize).slot;
            s == None || s == c.slot || exists i :: 0 <= i < |calls| && FirstPost(calls[i].args) == s
    decreases |calls|
  {
    if calls != [] {
      var c' := InvokeStep(c, calls[0], serialize);
      SlotProvenance(c', calls[1..], serialize);
      var s := Run(c, calls, serialize).slot;
      assert Run(c, calls, serialize) == Run(c', calls[1..], serialize);
      if s != None && s != c.slot {
        if s == c'.slot {
          assert FirstPost(calls[0].args) == s;
        } else {
          var i :| 0 <= i < |calls[1..]| && FirstPost(calls[1..][i].args) == s;
          assert FirstPost(calls[i + 1].args) == s;
        }
      }
    }
  }

  /**
   * A run of calls that neither carry a Post argument nor record anything
   * leaves the slot, stale or not, and the log exactly as they were.
   */
  lemma {:induction false} StaleSlotSurvives(c: Context, calls: seq<Call>, serialize: Serializer)
    requires forall i :: 0 <= i < |calls| ==> FirstPost(calls[i].args).None? && !Recorded(calls[i], serialize)
    ensures Run(c, calls, serialize) == c
    decreases |calls|
  {
    if calls != [] {
      StaleSlotSurvives(InvokeStep(c, calls[0], serialize), calls[1..], serialize);
    }
  }

  /** A run adds at most one row per call. */
  lemma {:induction false} AtMostOneRowPerCall(c: Context, calls: seq<Call>, serialize: Serializer)
    ensures |Run(c, calls, serialize).log| <= |c.log| + |calls|
    decreases |calls|
  {
    if calls != [] {
      AtMostOneRowPerCall(InvokeStep(c, calls[0], serialize), calls[1..], serialize);
    }
  }

  /**
   * Every row a run adds names the system actor and carries the entity type
   * and the action declared by one of the run's calls.
   */
  lemma {:induction false} RowsCarryAnnotation(c: Context, calls: seq<Call>, serialize: Serializer)
    ensures c.log <= Run(c, calls, serialize).log
    ensures forall j :: |c.log| <= j < |Run(c, calls, serialize).log| ==>
              Run(c, calls, serialize).log[j].modifiedBy == Actor &&
              exists i :: 0 <= i < |calls| &&
                Run(c, calls, serialize).log[j].entityType == calls[i].meta.entityType &&
                Run(c, calls, serialize).log[j].action == calls[i].meta.action
    decreases |calls|
  {
    if calls != [] {
      var c' := InvokeStep(c, calls[0], serialize);
      RowsCarryAnnotation(c', calls[1..], serialize);
      var d := Run(c, calls, serialize);
      assert d == Run(c', calls[1..], serialize);
      forall j | |c.log| <= j < |d.log|
        ensures d.log[j].modifiedBy == Actor &&
                exists i :: 0 <= i < |calls| &&
                  d.log[j].entityType == calls[i].meta.entityType &&
                  d.log[j].action == calls[i].meta.action
      {
        if j < |c'.log| {
          // the row the first call appended
          assert Recorded(calls[0], serialize);
          var r := Assemble(calls[0].meta, calls[0].target, calls[0].pending, serialize);
          assert d.log[j] == c'.log[j] == r.value;
          assert d.log[j].entityType == calls[0].meta.entityType && d.log[j].action == calls[0].meta.action;
        } else {
          var i :| 0 <= i < |calls[1..]| &&
                   d.log[j].entityType == calls[1..][i].meta.entityType &&
                   d.log[j].action == calls[1..][i].meta.action;
          assert calls[1..][i] == calls[i + 1];
        }
      }
    }
  }

  /**
   * The stale slot in action: an update of `post` that throws leaves `post`
   * in the slot, and a later delete-by-id that is recorded writes the state
   * of that unrelated `post` as its beforeData, with no entityId and no
   * afterData.
   */
  method FailedUpdateThenDelete(aspect: HistoryAspect, post: Post, id: int, effect: PostState -> PostState)
    returns (ghost stored: bool)
    modifies aspect, aspect.historyMapper, post
    ensures old(aspect.historyMapper.rows) <= aspect.historyMapper.rows
    ensures |aspect.historyMapper.rows| == |old(aspect.historyMapper.rows)| + (if stored then 1 else 0)
    ensures stored ==>
              var h := aspect.historyMapper.rows[|aspect.historyMapper.rows| - 1];
              h == History("Post", None, "DELETE", aspect.objectMapper(post.State()), None, Actor)
    ensures !stored ==> aspect.beforeData == Some(post)
    ensures aspect.objectMapper(post.State()).Some? ==>
              aspect.historyMapper.attempts == old(aspect.historyMapper.attempts) +
                [History("Post", None, "DELETE", aspect.objectMapper(post.State()), None, Actor)]
  {
    var _, _ := aspect.Invoke<Post>(TrackHistory("Post", "UPDATE"), [PostArg(post)],
                              Operation(effect, Threw("update failed")));
    assert aspect.beforeData == Some(post);
    var _, s := aspect.Invoke(TrackHistory("Post", "DELETE"), [LongArg(id)],
                              Operation(x => x, Returned(())));
    stored := s;
  }

  /**
   * A create whose operation assigns the generated key `key`: the recorded
   * row carries that key, and its beforeData equals its afterData, both the
   * serialization of the post as it is after the insert.
   */
  method CreateRecordsGeneratedKey(aspect: HistoryAspect, post: Post, key: int)
    returns (ghost stored: bool)
    modifies aspect, aspect.historyMapper, post
    ensures post.State() == old(post.State()).(id := Some(key))
    ensures old(aspect.historyMapper.rows) <= aspect.historyMapper.rows
    ensures |aspect.historyMapper.rows| == |old(aspect.historyMapper.rows)| + (if stored then 1 else 0)
    ensures stored ==>
              var h := aspect.historyMapper.rows[|aspect.historyMapper.rows| - 1];
              h.entityId == Some(key) && h.action == "CREATE" &&
              h.beforeData == h.afterData == aspect.objectMapper(post.State()) && h.beforeData.Some? &&
              aspect.beforeData == None
    ensures aspect.objectMapper(post.State()).Some? ==>
              |aspect.historyMapper.attempts| == |old(aspect.historyMapper.attempts)| + 1 &&
              var h := aspect.historyMapper.attempts[|aspect.historyMapper.attempts| - 1];
              h.entityId == Some(key) && h.action == "CREATE" && h.beforeData == h.afterData
  {
    var _, s := aspect.Invoke(TrackHistory("Post", "CREATE"), [PostArg(post)],
                              Operation((p: PostState) => p.(id := Some(key)), Returned(post)));
    stored := s;
  }
}
