/** The TaskFlow API handlers over the in-memory document. Each handler of
    the web service loads the document, searches and updates it, and writes
    it back on success; here the document is the state of a `Store`, and the
    write-back is counted in the ghost field `saves`. Fresh ids and
    timestamps, which the service takes from the wall clock, are parameters. */
module Backend {
  import opened Wrappers
  import opened Records
  import opened Lists
  import opened Document

  class Store {
    var users: seq<User>
    var teams: seq<Team>
    var tasks: seq<Task>
    var messages: seq<Message>
    /** How many times the document has been written back. */
    ghost var saves: nat

    /** The document the service starts from when no data file exists. */
    constructor Empty()
      ensures users == [] && teams == [] && tasks == [] && messages == []
      ensures saves == 0
    {
      users, teams, tasks, messages := [], [], [], [];
      saves := 0;
    }

    /** A document read back from an existing data file. */
    constructor Load(users: seq<User>, teams: seq<Team>, tasks: seq<Task>, messages: seq<Message>)
      ensures this.users == users && this.teams == teams
      ensures this.tasks == tasks && this.messages == messages
      ensures saves == 0
    {
      this.users, this.teams, this.tasks, this.messages := users, teams, tasks, messages;
      saves := 0;
    }

    /** POST /api/auth/register: refuse an e-mail any user already holds;
        otherwise append the new user and reply with its session. */
    method Register(req: RegisterRequest, newId: string) returns (r: Reply<Session>)
      modifies this
      ensures teams == old(teams) && tasks == old(tasks) && messages == old(messages)
      ensures r.Err? <==> req.email in Emails(old(users))
      ensures r.Err? ==> r.error == EmailExists && unchanged(this)
      ensures r.Ok? ==>
        var u := User(newId, req.name.GetOr(""), req.email, req.password, req.role.GetOr("member"));
        users == old(users) + [u] && r.value == SessionFor(u) && saves == old(saves) + 1
      ensures old(DistinctEmails(users)) ==> DistinctEmails(users)
    {
      if req.email in Emails(users) {
        return Err(EmailExists);
      }
      var u := User(newId, req.name.GetOr(""), req.email, req.password, req.role.GetOr("member"));
      if DistinctEmails(users) {
        AppendNewEmail(users, u);
      }
      users := users + [u];
      saves := saves + 1;
      r := Ok(SessionFor(u));
    }

    /** POST /api/auth/login: the first user, in list order, whose e-mail and
        password both equal the request's; the document is only read. */
    method Login(email: string, password: string) returns (r: Reply<Session>)
      ensures r.Ok? <==> exists i :: 0 <= i < |users| && users[i].email == email && users[i].password == password
      ensures match FirstIndexOf(Credentials(users), (email, password))
        case None => r == Err(InvalidCredentials)
        case Some(i) => r == Ok(SessionFor(users[i]))
    {
      var i := 0;
      while i < |users|
        invariant 0 <= i <= |users|
        invariant forall j :: 0 <= j < i ==> users[j].email != email || users[j].password != password
      {
        if users[i].email == email && users[i].password == password {
          FirstIndexOfAt(Credentials(users), (email, password), i);
          return Ok(SessionFor(users[i]));
        }
        i := i + 1;
      }
      assert (email, password) !in Credentials(users);
      r := Err(InvalidCredentials);
    }

    /** POST /api/teams: append a team whose only member is its leader. */
    method CreateTeam(req: TeamRequest, newId: string) returns (t: Team)
      modifies this
      ensures users == old(users) && tasks == old(tasks) && messages == old(messages)
      ensures t.id == newId && t.name == req.name.GetOr("") && t.leaderId == req.leaderId.GetOr("")
      ensures t.members == [t.leaderId]
      ensures teams == old(teams) + [t] && saves == old(saves) + 1
    {
      var leader := req.leaderId.GetOr("");
      t := Team(newId, req.name.GetOr(""), leader, [leader]);
      teams := teams + [t];
      saves := saves + 1;
    }

    /** GET /api/teams: every team when the filter is absent or empty,
        otherwise the teams led by the filter, in storage order. */
    method GetTeams(leaderId: Option<string>) returns (r: seq<Team>)
      ensures leaderId.None? || leaderId == Some("") ==> r == teams
      ensures leaderId.Some? && leaderId.value != "" ==> r == TeamsLedBy(teams, leaderId.value)
    {
      if leaderId.Some? && leaderId.value != "" {
        r := TeamsLedBy(teams, leaderId.value);
      } else {
        r := teams;
      }
    }

    /** POST /api/teams/{team_id}/members/{user_email}: find the user by
        e-mail, then the team by id; add the user's id to that team's
        members unless it is already there. */
    method AddTeamMember(teamId: string, userEmail: string) returns (r: Reply<string>)
      modifies this
      ensures users == old(users) && tasks == old(tasks) && messages == old(messages)
      ensures match FirstIndexOf(Emails(old(users)), userEmail)
        case None => r == Err(UserNotFound) && unchanged(this)
        case Some(u) =>
          match FirstIndexOf(TeamIds(old(teams)), teamId)
          case None => r == Err(TeamNotFound) && unchanged(this)
          case Some(t) =>
            r == Ok("Member added") && saves == old(saves) + 1 &&
            teams == old(teams)[t := old(teams)[t].(members := AddMember(old(teams)[t].members, old(users)[u].id))]
    {
      var u := 0;
      while u < |users|
        invariant 0 <= u <= |users|
        invariant forall j :: 0 <= j < u ==> users[j].email != userEmail
      {
        if users[u].email == userEmail {
          break;
        }
        u := u + 1;
      }
      if u == |users| {
        assert userEmail !in Emails(users);
        return Err(UserNotFound);
      }
      FirstIndexOfAt(Emails(users), userEmail, u);
      var user := users[u];

      var t := 0;
      while t < |teams|
        invariant 0 <= t <= |teams|
        invariant forall j :: 0 <= j < t ==> teams[j].id != teamId
        invariant unchanged(this)
      {
        if teams[t].id == teamId {
          FirstIndexOfAt(TeamIds(teams), teamId, t);
          var team := teams[t];
          if user.id !in team.members {
            team := team.(members := team.members + [user.id]);
          }
          teams := teams[t := team];
          saves := saves + 1;
          return Ok("Member added");
        }
        t := t + 1;
      }
      assert teamId !in TeamIds(teams);
      r := Err(TeamNotFound);
    }

    /** POST /api/tasks: append a pending task with no updates. */
    method CreateTask(req: TaskRequest, newId: string, now: string) returns (t: Task)
      modifies this
      ensures users == old(users) && teams == old(teams) && messages == old(messages)
      ensures t.id == newId && t.createdAt == now
      ensures t.title == req.title.GetOr("") && t.description == req.description.GetOr("")
      ensures t.assignedTo == req.assignedTo.GetOr("") && t.assignedBy == req.assignedBy.GetOr("")
      ensures t.deadline == req.deadline.GetOr("")
      ensures t.status == "pending" && t.updates == []
      ensures tasks == old(tasks) + [t] && saves == old(saves) + 1
    {
      t := Task(newId, req.title.GetOr(""), req.description.GetOr(""),
                req.assignedTo.GetOr(""), req.assignedBy.GetOr(""), req.deadline.GetOr(""),
                "pending", now, []);
      tasks := tasks + [t];
      saves := saves + 1;
    }

    /** GET /api/tasks: every task; the team filter is accepted and ignored. */
    method GetTasks(teamId: Option<string>) returns (r: seq<Task>)
      ensures r == tasks
    {
      r := tasks;
    }

    /** PATCH /api/tasks/{task_id}: on the first task with that id, overwrite
        the status when the request carries one; reply with the task. */
    method UpdateTask(taskId: string, status: Option<string>) returns (r: Reply<Task>)
      modifies this
      ensures users == old(users) && teams == old(teams) && messages == old(messages)
      ensures match FirstIndexOf(TaskIds(old(tasks)), taskId)
        case None => r == Err(TaskNotFound) && unchanged(this)
        case Some(i) =>
          tasks == old(tasks)[i := old(tasks)[i].(status := status.GetOr(old(tasks)[i].status))] &&
          r == Ok(tasks[i]) && saves == old(saves) + 1
    {
      var i := 0;
      while i < |tasks|
        invariant 0 <= i <= |tasks|
        invariant forall j :: 0 <= j < i ==> tasks[j].id != taskId
        invariant unchanged(this)
      {
        if tasks[i].id == taskId {
          FirstIndexOfAt(TaskIds(tasks), taskId, i);
          var task := tasks[i];
          if status.Some? {
            task := task.(status := status.value);
          }
          tasks := tasks[i := task];
          saves := saves + 1;
          return Ok(task);
        }
        i := i + 1;
      }
      assert taskId !in TaskIds(tasks);
      r := Err(TaskNotFound);
    }

    /** POST /api/tasks/{task_id}/updates: append one update to the first
        task with that id and reply with the update. */
    method AddTaskUpdate(taskId: string, req: UpdateRequest, newId: string, now: string) returns (r: Reply<Update>)
      modifies this
      ensures users == old(users) && teams == old(teams) && messages == old(messages)
      ensures match FirstIndexOf(TaskIds(old(tasks)), taskId)
        case None => r == Err(TaskNotFound) && unchanged(this)
        case Some(i) =>
          var up := Update(newId, req.message.GetOr(""), req.sentBy.GetOr(""), now);
          tasks == old(tasks)[i := old(tasks)[i].(updates := old(tasks)[i].updates + [up])] &&
          r == Ok(up) && saves == old(saves) + 1
    {
      var i := 0;
      while i < |tasks|
        invariant 0 <= i <= |tasks|
        invariant forall j :: 0 <= j < i ==> tasks[j].id != taskId
        invariant unchanged(this)
      {
        if tasks[i].id == taskId {
          FirstIndexOfAt(TaskIds(tasks), taskId, i);
          var up := Update(newId, req.message.GetOr(""), req.sentBy.GetOr(""), now);
          tasks := tasks[i := tasks[i].(updates := tasks[i].updates + [up])];
          saves := saves + 1;
          return Ok(up);
        }
        i := i + 1;
      }
      assert taskId !in TaskIds(tasks);
      r := Err(TaskNotFound);
    }

    /** POST /api/messages: append a message, of chat type "project" unless
        the request names one. */
    method CreateMessage(req: MessageRequest, newId: string, now: string) returns (m: Message)
      modifies this
      ensures users == old(users) && teams == old(teams) && tasks == old(tasks)
      ensures m.id == newId && m.timestamp == now
      ensures m.senderId == req.senderId.GetOr("") && m.content == req.content.GetOr("")
      ensures m.chatType == req.chatType.GetOr("project") && m.recipientId == req.recipientId
      ensures messages == old(messages) + [m] && saves == old(saves) + 1
    {
      m := Message(newId, req.senderId.GetOr(""), req.content.GetOr(""), now,
                   req.chatType.GetOr("project"), req.recipientId);
      messages := messages + [m];
      saves := saves + 1;
    }

    /** GET /api/messages: every message, in storage order. */
    method GetMessages() returns (r: seq<Message>)
      ensures r == messages
    {
      r := messages;
    }
  }
}
