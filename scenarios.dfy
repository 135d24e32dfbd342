/** Clients of the Store that combine handlers, proved from the handlers'
    contracts alone: registering and logging in, adding a member twice,
    creating a task and patching its status. */
module Scenarios {
  import opened Wrappers
  import opened Records
  import opened Lists
  import opened Document
  import opened Backend

  /** A successful registration is followed by a login with the same
      credentials that replies with the same session. */
  method RegisterThenLogin(store: Store, req: RegisterRequest, newId: string)
    returns (registered: Reply<Session>, loggedIn: Reply<Session>)
    modifies store
    ensures registered.Ok? ==> loggedIn == registered
  {
    ghost var before := store.users;
    registered := store.Register(req, newId);
    if registered.Ok? {
      var c := Credentials(before);
      assert (req.email, req.password) !in c by {
        forall j | 0 <= j < |c| ensures c[j] != (req.email, req.password) {
          assert Emails(before)[j] == c[j].0;
        }
      }
      assert Credentials(store.users) == c + [(req.email, req.password)];
      FirstIndexOfAppended(c, (req.email, req.password));
    }
    loggedIn := store.Login(req.email, req.password);
  }

  /** Adding the same user to the same team twice: the second call gives
      the same reply and leaves the teams as the first call left them. */
  method AddTeamMemberTwice(store: Store, teamId: string, userEmail: string)
    returns (first: Reply<string>, second: Reply<string>, ghost afterFirst: seq<Team>)
    modifies store
    ensures second == first
    ensures store.teams == afterFirst
  {
    first := store.AddTeamMember(teamId, userEmail);
    afterFirst := store.teams;
    ghost var users := store.users;
    ghost var before := old(store.teams);
    if first.Ok? {
      var u := FirstIndexOf(Emails(users), userEmail).value;
      var t := FirstIndexOf(TeamIds(before), teamId).value;
      assert TeamIds(afterFirst) == TeamIds(before);
      AddMemberIdempotent(before[t].members, users[u].id);
    }
    second := store.AddTeamMember(teamId, userEmail);
  }

  /** A task created with an id no other task has, then patched to a new
      status, is listed last with that status and every other field as
      created. */
  method CreateThenPatch(store: Store, req: TaskRequest, newId: string, now: string, status: string)
    returns (created: Task, listed: seq<Task>)
    modifies store
    requires newId !in TaskIds(store.tasks)
    ensures created.status == "pending"
    ensures listed == old(store.tasks) + [created.(status := status)]
  {
    ghost var before := store.tasks;
    created := store.CreateTask(req, newId, now);
    assert TaskIds(store.tasks) == TaskIds(before) + [newId];
    FirstIndexOfAppended(TaskIds(before), newId);
    var patched := store.UpdateTask(newId, Some(status));
    listed := store.GetTasks(None);
  }
}
