/**
 * Record shapes of the three collections (users, posts, comments), the
 * controllers' error outcomes, and the inputs that come from outside the
 * data-access layer (the seed feed and the store's verdict on a bulk write).
 * The store-internal `_id` is not modelled; application ids are naturals.
 */
module Types {

  datatype Option<+T> = None | Some(value: T)

  datatype Geo = Geo(lat: string, lng: string)

  datatype Address = Address(street: string, suite: string, city: string, zipcode: string, geo: Geo)

  datatype Company = Company(name: string, catchPhrase: string, bs: string)

  /** An account. `id` is assigned by the caller; 0 stands for a falsy or absent id. */
  datatype User = User(
    id: nat,
    name: string,
    username: string,
    email: string,
    address: Address,
    phone: string,
    website: string,
    company: Company)

  /** A post; `userId` is the logical foreign key to `User.id`. */
  datatype Post = Post(id: nat, userId: nat, title: string, body: string)

  /** A comment; `postId` is the logical foreign key to `Post.id`. */
  datatype Comment = Comment(id: nat, postId: nat, name: string, email: string, body: string)

  /**
   * The body of an account update: every top-level field may be present or
   * absent. Nested objects (`address`, `company`) are replaced as a whole,
   * as a `$set` of a top-level field and an object spread both do.
   */
  datatype UserPatch = UserPatch(
    id: Option<nat>,
    name: Option<string>,
    username: Option<string>,
    email: Option<string>,
    address: Option<Address>,
    phone: Option<string>,
    website: Option<string>,
    company: Option<Company>)

  /** A post together with its comments, as the nested read returns it. */
  datatype PostView = PostView(post: Post, comments: seq<Comment>)

  /** An account together with its posts, as the nested read returns it. */
  datatype UserView = UserView(user: User, posts: seq<PostView>)

  /** The error messages the controllers throw; `Failed` carries a rethrown message. */
  datatype Error =
    | NotFound
    | UserExists
    | InvalidUserData
    | InvalidId
    | PostNotFound
    | UnauthorizedUser
    | UpdateFailed
    | Failed(message: string)

  datatype Result<+T> = Ok(value: T) | Err(error: Error)

  /** One list fetched from the external seed feed, or the message of its failure. */
  datatype Feed<+T> = Received(items: seq<T>) | FetchFailed(message: string)

  /**
   * The store's verdict on one ordered bulk insert: every document written,
   * or the batch aborted with a message after its first `written` documents.
   */
  datatype BatchOutcome = Written | Aborted(message: string, written: nat)
}
