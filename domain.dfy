/**
 * The entities the history interceptor works on: the Post entity, the
 * History record it writes, the @TrackHistory annotation and the argument
 * values of an intercepted call.
 */
module Domain {
  import opened Wrappers

  /** The field values of a Post at one instant; every field is a nullable reference, timestamps are opaque instants. */
  datatype PostState = PostState(
    id: Option<int>,
    title: Option<string>,
    content: Option<string>,
    author: Option<string>,
    createdAt: Option<int>,
    updatedAt: Option<int>)

  /** A Post object: a mutable reference whose fields the business operations update in place (the generated key, for one). */
  class Post {
    var id: Option<int>
    var title: Option<string>
    var content: Option<string>
    var author: Option<string>
    var createdAt: Option<int>
    var updatedAt: Option<int>

    /** The current field values of this object. */
    function State(): PostState
      reads this
    {
      PostState(id, title, content, author, createdAt, updatedAt)
    }

    constructor (s: PostState)
      ensures State() == s
    {
      id, title, content, author := s.id, s.title, s.content, s.author;
      createdAt, updatedAt := s.createdAt, s.updatedAt;
    }

    /** The setters, applied all at once: every field takes the value in `s`. */
    method Assign(s: PostState)
      modifies this
      ensures State() == s
    {
      id, title, content, author := s.id, s.title, s.content, s.author;
      createdAt, updatedAt := s.createdAt, s.updatedAt;
    }
  }

  /** The metadata a tracked operation declares: the entity kind and the action label. */
  datatype TrackHistory = TrackHistory(entityType: string, action: string)

  /**
   * One audit record as the interceptor fills it in. The store-assigned
   * `id` and `modifiedAt` are not part of it: the interceptor never sets them.
   */
  datatype History = History(
    entityType: string,
    entityId: Option<int>,
    action: string,
    beforeData: Option<string>,
    afterData: Option<string>,
    modifiedBy: string)

  /** An argument of an intercepted call, as far as the interceptor can tell them apart. */
  datatype Arg =
    | PostArg(post: Post)     // a reference to a Post object
    | LongArg(value: int)     // a boxed id, as deletePost passes
    | OtherArg                // an object of any other class
    | NullArg                 // a null reference
}
