/**
 * The change-history interceptor: an entry hook that remembers the first
 * argument in a per-thread slot, an exit hook that assembles a History
 * record and appends it to the store, and the composition of both around
 * one tracked call.
 *
 * The pure functions state what each hook computes; the HistoryAspect
 * class performs the hooks on its mutable slot and on the store, and its
 * methods are proved against those functions.
 */
module Aspect {
  import opened Wrappers
  import opened Domain
  import opened Mapper

  /** The actor recorded on every row: there is no authenticated user. */
  const Actor: string := "system"

  /** The JSON object mapper: deterministic, and `None` where writing the value throws. */
  type Serializer = PostState -> Option<string>

  /** The `instanceof Post` test on the first argument, shared by both hooks. */
  function FirstPost(args: seq<Arg>): (r: Option<Post>)
    ensures r.Some? <==> |args| > 0 && args[0].PostArg?
    ensures r.Some? ==> args[0] == PostArg(r.value)
  {
    if |args| > 0 && args[0].PostArg? then Some(args[0].post) else None
  }

  /** The Post objects a tracked operation may update in place: its Post argument, if any. */
  function Targets(args: seq<Arg>): (ps: set<Post>)
  {
    if |args| > 0 && args[0].PostArg? then {args[0].post} else {}
  }

  /**
   * The slot after the entry hook: the first argument when it is a Post;
   * otherwise the slot keeps whatever it held, a stale value included.
   */
  function Entered(slot: Option<Post>, args: seq<Arg>): (r: Option<Post>)
    ensures |args| > 0 && args[0].PostArg? ==> r == Some(args[0].post)
    ensures !(|args| > 0 && args[0].PostArg?) ==> r == slot
    ensures slot.Some? ==> r.Some?
  {
    match FirstPost(args)
    case Some(p) => Some(p)
    case None => slot
  }

  /** The current state of the object a nullable reference points to. */
  function Snapshot(p: Option<Post>): (s: Option<PostState>)
    reads if p.Some? then {p.value} else {}
    ensures s.Some? <==> p.Some?
    ensures p.Some? ==> s.value == p.value.State()
  {
    match p
    case Some(q) => Some(q.State())
    case None => None
  }

  /**
   * The record the exit hook builds from the annotation, the exit-time state
   * of the Post argument (`target`) and the exit-time state of the Post in
   * the slot (`pending`); `None` when one of the serializations it attempts
   * throws, so that no record exists.
   */
  function Assemble(meta: TrackHistory, target: Option<PostState>, pending: Option<PostState>,
                    serialize: Serializer): (r: Option<History>)
    ensures r.Some? <==> ((target.Some? ==> serialize(target.value).Some?) &&
                          (pending.Some? ==> serialize(pending.value).Some?))
    ensures r.Some? ==> (r.value.entityType == meta.entityType &&
                         r.value.action == meta.action &&
                         r.value.modifiedBy == Actor)
    ensures r.Some? ==> r.value.entityId == (if target.Some? then target.value.id else None)
    ensures r.Some? ==> ((r.value.afterData.Some? <==> target.Some?) &&
                         (target.Some? ==> r.value.afterData == serialize(target.value)))
    ensures r.Some? ==> ((r.value.beforeData.Some? <==> pending.Some?) &&
                         (pending.Some? ==> r.value.beforeData == serialize(pending.value)))
    ensures r.Some? && target == pending ==> r.value.beforeData == r.value.afterData
  {
    var afterData := if target.Some? then serialize(target.value) else None;
    var beforeData := if pending.Some? then serialize(pending.value) else None;
    if target.Some? && afterData.None? then None
    else if pending.Some? && beforeData.None? then None
    else
      var entityId := if target.Some? then target.value.id else None;
      Some(History(meta.entityType, entityId, meta.action, beforeData, afterData, Actor))
  }

  /** What the interceptor keeps for one thread: the pending slot and the history log. */
  datatype Context = Context(slot: Option<Post>, log: seq<History>)

  /**
   * The state after the exit hook, given the record it assembled and whether
   * the store accepted it: one more row and an empty slot, or, on any failure,
   * exactly the state before (the slot is not cleared then).
   */
  function Exit(c: Context, record: Option<History>, stored: bool): (d: Context)
    ensures c.log <= d.log && |d.log| <= |c.log| + 1
    ensures record.Some? && stored ==> d.log == c.log + [record.value] && d.slot == None
    ensures !(record.Some? && stored) ==> d == c
  {
    if record.Some? && stored then Context(None, c.log + [record.value]) else c
  }

  /** How the tracked business operation ended: it returned a value or threw. */
  datatype Completion<R> = Returned(value: R) | Threw(error: string)

  /**
   * An opaque tracked operation: what it does to the fields of its Post
   * argument, and how it completes.
   */
  datatype Operation<R> = Operation(effect: PostState -> PostState, completion: Completion<R>)

  /**
   * One intercepted call as the hooks see it: its annotation and arguments,
   * whether the operation returned normally, the exit-time states of the Post
   * argument and of the slot's Post, and whether the store accepted the row.
   */
  datatype Call = Call(meta: TrackHistory, args: seq<Arg>, returned: bool,
                       target: Option<PostState>, pending: Option<PostState>, stored: bool)

  /** True when the call left a row in the log. */
  predicate Recorded(call: Call, serialize: Serializer)
  {
    call.returned && call.stored && Assemble(call.meta, call.target, call.pending, serialize).Some?
  }

  /**
   * One whole intercepted call: the entry hook, then, only when the operation
   * returned normally, the exit hook.
   */
  function InvokeStep(c: Context, call: Call, serialize: Serializer): (d: Context)
    ensures c.log <= d.log && |d.log| <= |c.log| + 1
    ensures Recorded(call, serialize) ==>
              d == Context(None, c.log + [Assemble(call.meta, call.target, call.pending, serialize).value])
    ensures !Recorded(call, serialize) ==> d == Context(Entered(c.slot, call.args), c.log)
  {
    var entered := Context(Entered(c.slot, call.args), c.log);
    if call.returned
    then Exit(entered, Assemble(call.meta, call.target, call.pending, serialize), call.stored)
    else entered
  }

  /** The interceptor object of one thread: its slot, its store and its object mapper. */
  class HistoryAspect {
    const historyMapper: HistoryMapper
    const objectMapper: Serializer
    /** The pending "before" value; a single thread's view of the thread-local map. */
    var beforeData: Option<Post>

    constructor (historyMapper: HistoryMapper, objectMapper: Serializer)
      ensures this.historyMapper == historyMapper && this.objectMapper == objectMapper
      ensures beforeData == None
    {
      this.historyMapper := historyMapper;
      this.objectMapper := objectMapper;
      beforeData := None;
    }

    /** The slot and the log, as one value. */
    ghost function State(): Context
      reads this, historyMapper
    {
      Context(beforeData, historyMapper.rows)
    }

    /** The entry hook: remember the first argument when it is a Post. */
    method BeforeMethod(args: seq<Arg>)
      modifies this
      ensures State() == Context(Entered(old(beforeData), args), old(historyMapper.rows))
    {
      if |args| > 0 && args[0].PostArg? {
        beforeData := Some(args[0].post);
      }
    }

    /**
     * The exit hook: build the record field by field, insert it and empty
     * the slot; any exception on the way ends the hook early and is swallowed.
     * `stored` tells whether the row was appended.
     */
    method AfterMethod(meta: TrackHistory, args: seq<Arg>) returns (ghost stored: bool)
      modifies this, historyMapper
      ensures State() == Exit(old(State()),
                              Assemble(meta, Snapshot(FirstPost(args)), Snapshot(old(beforeData)), objectMapper),
                              stored)
      ensures stored ==> Assemble(meta, Snapshot(FirstPost(args)), Snapshot(old(beforeData)), objectMapper).Some?
      ensures var r := Assemble(meta, Snapshot(FirstPost(args)), Snapshot(old(beforeData)), objectMapper);
              historyMapper.attempts == old(historyMapper.attempts) + (if r.Some? then [r.value] else [])
    {
      stored := false;
      var entityId: Option<int> := None;
      var afterData: Option<string> := None;
      if |args| > 0 && args[0].PostArg? {
        var post := args[0].post;
        entityId := post.id;
        afterData := objectMapper(post.State());
        if afterData.None? {
          return;  // writing the argument threw
        }
      }
      var before: Option<string> := None;
      if beforeData.Some? {
        before := objectMapper(beforeData.value.State());
        if before.None? {
          return;  // writing the slot's value threw
        }
      }
      var history := History(meta.entityType, entityId, meta.action, before, afterData, Actor);
      var ok := historyMapper.InsertHistory(history);
      if !ok {
        return;  // the insert threw
      }
      beforeData := None;
      stored := true;
    }

    /**
     * One tracked call: the entry hook, the operation, and the exit hook only
     * after a normal return. The operation's completion reaches the caller
     * unchanged.
     */
    method Invoke<R>(meta: TrackHistory, args: seq<Arg>, op: Operation<R>)
      returns (result: Completion<R>, ghost stored: bool)
      modifies this, historyMapper, Targets(args)
      ensures result == op.completion
      ensures forall p :: p in Targets(args) ==> p.State() == op.effect(old(p.State()))
      ensures State() == InvokeStep(old(State()),
                                    Call(meta, args, op.completion.Returned?, Snapshot(FirstPost(args)),
                                         Snapshot(Entered(old(beforeData), args)), stored),
                                    objectMapper)
      ensures old(historyMapper.rows) <= historyMapper.rows
      ensures |historyMapper.rows| == |old(historyMapper.rows)| + (if stored then 1 else 0)
      ensures op.completion.Threw? ==> historyMapper.rows == old(historyMapper.rows)
      ensures var r := Assemble(meta, Snapshot(FirstPost(args)), Snapshot(Entered(old(beforeData), args)), objectMapper);
              historyMapper.attempts ==
                old(historyMapper.attempts) + (if op.completion.Returned? && r.Some? then [r.value] else [])
      ensures FirstPost(args).Some? && |historyMapper.rows| > |old(historyMapper.rows)| ==>
                historyMapper.rows[|historyMapper.rows| - 1].beforeData
                  == historyMapper.rows[|historyMapper.rows| - 1].afterData
                  == objectMapper(FirstPost(args).value.State())
    {
      BeforeMethod(args);
      // the tracked operation itself
      if |args| > 0 && args[0].PostArg? {
        var post := args[0].post;
        post.Assign(op.effect(post.State()));
      }
      result := op.completion;
      stored := false;
      if result.Returned? {
        stored := AfterMethod(meta, args);
      }
    }
  }
}
