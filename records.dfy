/** Records kept by the stores: task documents, lock documents and user
    documents, with the field names and status values of model.py. */
module Records {

  datatype Option<+T> = None | Some(value: T)

  /** Task ids stand for MongoDB ObjectIds: the store hands them out in
      increasing order, so ascending id order is insertion order. */
  type TaskId = nat

  /** User ids are strings; the empty string is the "not logged in" value. */
  type UserId = string

  /** Instants, as an integer clock reading supplied by the caller. */
  type Time = int

  /** Scores per annotation dimension. The engine stores them and never
      looks inside them. */
  type Scores = map<string, int>

  datatype Status = Pending | Annotating | Annotated

  /** The status as the documents spell it. */
  function StatusName(s: Status): string
  {
    match s
    case Pending => "pending"
    case Annotating => "annotating"
    case Annotated => "annotated"
  }

  lemma StatusNameInjective(s: Status, s': Status)
    ensures StatusName(s) == StatusName(s') <==> s == s'
  {
  }

  /** One annotation task document. `metadata` holds "method_name",
      "image_name" and whatever else the corpus carried for the pair. */
  datatype Task = Task(
    id: TaskId,
    lqImagePath: string,
    hqImagePath: string,
    tag: string,
    metadata: map<string, string>,
    annotations: Scores,
    userEditedText: string,
    status: Status,
    assignedUser: Option<UserId>,
    assignedAt: Option<Time>,
    updatedAt: Option<Time>,
    lastUpdatedBy: Option<UserId>)

  /** One document of the lock collection; `doc_id` is the key it is stored under. */
  datatype Lock = Lock(userId: UserId, acquiredAt: Time, expiresAt: Time)

  /** One document of the users collection. */
  datatype UserDoc = UserDoc(
    userId: UserId,
    username: string,
    createdAt: Time,
    lastLogin: Option<Time>,
    isActive: bool)

  /** The User object the user repository hands back. */
  datatype User = User(userId: UserId, username: string, createdAt: Time, lastLogin: Option<Time>)
}
