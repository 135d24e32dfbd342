/** The records of the TaskFlow document (users, teams, tasks with their
    nested updates, messages), the request bodies the handlers read, the
    replies they build and the errors they report. */
module Records {
  import opened Wrappers

  /** A registered account; the password is stored as given. */
  datatype User = User(id: string, name: string, email: string, password: string, role: string)

  /** What the API shows of a user: every field but the password. */
  datatype UserView = UserView(id: string, name: string, email: string, role: string)

  /** The bearer-token reply of register and login. */
  datatype Session = Session(accessToken: string, tokenType: string, user: UserView)

  datatype Team = Team(id: string, name: string, leaderId: string, members: seq<string>)

  /** A progress note, kept only inside its task. */
  datatype Update = Update(id: string, message: string, sentBy: string, sentAt: string)

  datatype Task = Task(
    id: string,
    title: string,
    description: string,
    assignedTo: string,
    assignedBy: string,
    deadline: string,
    status: string,
    createdAt: string,
    updates: seq<Update>)

  datatype Message = Message(
    id: string,
    senderId: string,
    content: string,
    timestamp: string,
    chatType: string,
    recipientId: Option<string>)

  /** The error replies; each has the status code the handler pairs with it in
      its reply tuple and the text of its `error` field. */
  datatype ApiError = EmailExists | InvalidCredentials | UserNotFound | TeamNotFound | TaskNotFound {

    function Status(): int {
      match this
      case EmailExists => 400
      case InvalidCredentials => 401
      case _ => 404
    }

    function Text(): string {
      match this
      case EmailExists => "Email already exists"
      case InvalidCredentials => "Invalid credentials"
      case UserNotFound => "User not found"
      case TeamNotFound => "Team not found"
      case TaskNotFound => "Task not found"
    }
  }

  type Reply<T> = Result<T, ApiError>

  // Request bodies: a field that may be missing from the JSON body is an Option.

  datatype RegisterRequest = RegisterRequest(name: Option<string>, email: string, password: string, role: Option<string>)

  datatype TeamRequest = TeamRequest(name: Option<string>, leaderId: Option<string>)

  datatype TaskRequest = TaskRequest(
    title: Option<string>,
    description: Option<string>,
    assignedTo: Option<string>,
    assignedBy: Option<string>,
    deadline: Option<string>)

  datatype UpdateRequest = UpdateRequest(message: Option<string>, sentBy: Option<string>)

  datatype MessageRequest = MessageRequest(
    senderId: Option<string>,
    content: Option<string>,
    chatType: Option<string>,
    recipientId: Option<string>)

  /** The password-free view of a user. */
  function View(u: User): UserView {
    UserView(u.id, u.name, u.email, u.role)
  }

  /** The session reply for a user: the token is "token_" followed by the id. */
  function SessionFor(u: User): Session {
    Session("token_" + u.id, "bearer", View(u))
  }
}
