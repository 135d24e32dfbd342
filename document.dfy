/** The pure reads of the TaskFlow document: the keys the handlers search
    by, the leader filter of the team listing, the member-append rule and
    the e-mail uniqueness that registration keeps. */
module Document {
  import opened Wrappers
  import opened Records
  import opened Lists

  /** The e-mail of each user, in list order. */
  function Emails(users: seq<User>): seq<string> {
    seq(|users|, i requires 0 <= i < |users| => users[i].email)
  }

  /** The (email, password) pair of each user, in list order. */
  function Credentials(users: seq<User>): seq<(string, string)> {
    seq(|users|, i requires 0 <= i < |users| => (users[i].email, users[i].password))
  }

  function TeamIds(teams: seq<Team>): seq<string> {
    seq(|teams|, i requires 0 <= i < |teams| => teams[i].id)
  }

  function TaskIds(tasks: seq<Task>): seq<string> {
    seq(|tasks|, i requires 0 <= i < |tasks| => tasks[i].id)
  }

  /** No two users share an e-mail address. */
  predicate DistinctEmails(users: seq<User>) {
    NoDuplicates(Emails(users))
  }

  /** Appending a user whose e-mail nobody holds keeps e-mails distinct. */
  lemma AppendNewEmail(users: seq<User>, u: User)
    requires DistinctEmails(users)
    requires u.email !in Emails(users)
    ensures DistinctEmails(users + [u])
  {
    var e, e' := Emails(users), Emails(users + [u]);
    assert e' == e + [u.email];
    forall i, j | 0 <= i < j < |e'| ensures e'[i] != e'[j] {
      if j == |e| {
        assert e'[i] == e[i];
      } else {
        assert e'[i] == e[i] && e'[j] == e[j];
      }
    }
  }

  /** A user whose e-mail is unique is the first (and only) credential
      match for its own e-mail and password. */
  lemma FirstCredentialIsUnique(users: seq<User>, i: nat)
    requires DistinctEmails(users)
    requires i < |users|
    ensures FirstIndexOf(Credentials(users), (users[i].email, users[i].password)) == Some(i)
  {
    var c := Credentials(users);
    forall j | 0 <= j < i ensures c[j] != c[i] {
      assert Emails(users)[j] != Emails(users)[i];
    }
    FirstIndexOfAt(c, c[i], i);
  }

  /** The teams whose leader is `leader`, in storage order: every matching
      team is kept, as many times as the document holds it. */
  function TeamsLedBy(teams: seq<Team>, leader: string): (r: seq<Team>)
    ensures SubsequenceOf(r, teams)
    ensures forall t :: t in r <==> t in teams && t.leaderId == leader
    ensures forall t :: multiset(r)[t] == if t.leaderId == leader then multiset(teams)[t] else 0
  {
    if |teams| == 0 then []
    else
      var rest := TeamsLedBy(teams[1..], leader);
      assert teams == [teams[0]] + teams[1..];
      assert forall t :: t in teams <==> t == teams[0] || t in teams[1..];
      assert multiset(teams) == multiset{teams[0]} + multiset(teams[1..]);
      if teams[0].leaderId == leader then [teams[0]] + rest else rest
  }

  /** When every team has the leader, the filter keeps them all. */
  lemma {:induction false} TeamsLedByAll(teams: seq<Team>, leader: string)
    requires forall t :: t in teams ==> t.leaderId == leader
    ensures TeamsLedBy(teams, leader) == teams
  {
    if |teams| > 0 {
      assert teams[0] in teams;
      TeamsLedByAll(teams[1..], leader);
      assert teams == [teams[0]] + teams[1..];
    }
  }

  /** A member list after `uid` joins: appended at the end only when absent. */
  function AddMember(members: seq<string>, uid: string): (r: seq<string>)
    ensures uid in r
    ensures uid in members ==> r == members
    ensures uid !in members ==> |r| == |members| + 1 && r[..|members|] == members && r[|members|] == uid
  {
    if uid in members then members else members + [uid]
  }

  /** Adding the same user a second time changes nothing. */
  lemma AddMemberIdempotent(members: seq<string>, uid: string)
    ensures AddMember(AddMember(members, uid), uid) == AddMember(members, uid)
  {
  }

  /** After joining, the user's id occurs exactly once if it occurred at
      most once before. */
  lemma AddMemberOnce(members: seq<string>, uid: string)
    requires Occurrences(members, uid) <= 1
    ensures Occurrences(AddMember(members, uid), uid) == 1
  {
    OccurrencesZero(members, uid);
    if uid !in members {
      OccurrencesAppend(members, uid, uid);
    }
  }

  /** A member list without repeated ids keeps that property. */
  lemma AddMemberKeepsNoDuplicates(members: seq<string>, uid: string)
    requires NoDuplicates(members)
    ensures NoDuplicates(AddMember(members, uid))
  {
  }
}
