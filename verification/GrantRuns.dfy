/**
 Granting roles: the step on one collaborator's list of roles, the step on the workspace,
 and what any run of grants leaves behind.
 */
module GrantRuns {
  import opened GoResult
  import opened Strconv
  import opened Models
  import opened CollaboratorCache
  import opened CollaboratorLookups

  // ---------- The step on a list ----------

  /** Replaces the first role of the same environment, or appends. */
  function Assign(roles: seq<SimpleRole>, role: SimpleRole): seq<SimpleRole> {
    if roles == [] then [role]
    else if roles[0].environmentType == role.environmentType then [role] + roles[1..]
    else [roles[0]] + Assign(roles[1..], role)
  }

  /** What Grant sends for a list, or None when the role is already there. */
  function ListStep(roles: seq<SimpleRole>, role: SimpleRole): Option<seq<SimpleRole>> {
    if role in roles then None else Some(Assign(roles, role))
  }

  function Granted(roles: seq<SimpleRole>, role: SimpleRole): seq<SimpleRole> {
    if role in roles then roles else Assign(roles, role)
  }

  ghost predicate DistinctEnvironments(roles: seq<SimpleRole>) {
    forall i, j :: 0 <= i < j < |roles| ==> roles[i].environmentType != roles[j].environmentType
  }

  /** The list as a map from environment to role name; the first row of an environment counts. */
  function ToMap(roles: seq<SimpleRole>): map<string, string> {
    if roles == [] then map[] else ToMap(roles[1..])[roles[0].environmentType := roles[0].roleName]
  }

  lemma UpdateBehindHead(roles: seq<SimpleRole>, role: SimpleRole, index: nat)
    requires 0 < index < |roles|
    ensures [roles[0]] + roles[1..][index - 1 := role] == roles[index := role]
  {
  }

  lemma {:induction false} AssignAt(roles: seq<SimpleRole>, role: SimpleRole, index: int)
    requires -1 <= index < |roles|
    requires forall i :: 0 <= i < (if index < 0 then |roles| else index) ==>
                           roles[i].environmentType != role.environmentType
    requires index >= 0 ==> roles[index].environmentType == role.environmentType
    ensures Assign(roles, role) == if index < 0 then roles + [role] else roles[index := role]
  {
    if roles == [] {
    } else if index < 0 {
      AssignAt(roles[1..], role, -1);
      assert [roles[0]] + (roles[1..] + [role]) == roles + [role];
    } else if index == 0 {
      assert [role] + roles[1..] == roles[0 := role];
    } else {
      AssignAt(roles[1..], role, index - 1);
      UpdateBehindHead(roles, role, index);
    }
  }

  /** Every other environment keeps its rows and their positions; the new role is in, and at most one row is added. */
  lemma {:induction false} AssignChangesOneEnvironment(roles: seq<SimpleRole>, role: SimpleRole)
    ensures |roles| <= |Assign(roles, role)| <= |roles| + 1
    ensures role in Assign(roles, role)
    ensures forall i :: 0 <= i < |roles| && roles[i].environmentType != role.environmentType ==>
                          Assign(roles, role)[i] == roles[i]
    ensures forall i :: |roles| <= i < |Assign(roles, role)| ==> Assign(roles, role)[i] == role
    ensures |Assign(roles, role)| == |roles| <==> role.environmentType in ToMap(roles)
  {
    if roles == [] {
    } else {
      if roles[0].environmentType != role.environmentType {
        AssignChangesOneEnvironment(roles[1..], role);
      }
      assert roles == [roles[0]] + roles[1..];
    }
  }

  lemma {:induction false} AssignKeepsEnvironmentsDistinct(roles: seq<SimpleRole>, role: SimpleRole)
    requires DistinctEnvironments(roles)
    ensures DistinctEnvironments(Assign(roles, role))
    ensures forall r :: r in Assign(roles, role) ==> r == role || r in roles
  {
    if roles == [] {
    } else if roles[0].environmentType != role.environmentType {
      var rest := Assign(roles[1..], role);
      AssignKeepsEnvironmentsDistinct(roles[1..], role);
      forall j | 0 <= j < |rest| ensures rest[j].environmentType != roles[0].environmentType {
        assert rest[j] == role || rest[j] in roles[1..];
      }
    }
  }

  lemma {:induction false} AssignUpdatesMap(roles: seq<SimpleRole>, role: SimpleRole)
    ensures ToMap(Assign(roles, role)) == ToMap(roles)[role.environmentType := role.roleName]
  {
    if roles == [] {
    } else {
      var result := Assign(roles, role);
      if roles[0].environmentType == role.environmentType {
        assert result[1..] == roles[1..];
      } else {
        assert result[1..] == Assign(roles[1..], role);
        AssignUpdatesMap(roles[1..], role);
      }
    }
  }

  /** The role is at `i`, before every other row of its environment. */
  ghost predicate FirstAt(roles: seq<SimpleRole>, role: SimpleRole, i: int) {
    && 0 <= i < |roles| && roles[i] == role
    && forall j :: 0 <= j < i ==> roles[j].environmentType != role.environmentType
  }

  lemma {:induction false} ToMapMeaning(roles: seq<SimpleRole>, role: SimpleRole)
    ensures role.environmentType in ToMap(roles) && ToMap(roles)[role.environmentType] == role.roleName <==>
            exists i :: FirstAt(roles, role, i)
  {
    if roles == [] {
    } else if roles[0].environmentType == role.environmentType {
      assert roles[0] == role ==> FirstAt(roles, role, 0);
    } else {
      ToMapMeaning(roles[1..], role);
      forall i ensures FirstAt(roles, role, i + 1) <==> FirstAt(roles[1..], role, i) {
        FirstAtNext(roles, role, i);
      }
      assert forall i :: FirstAt(roles, role, i) ==> FirstAt(roles[1..], role, i - 1);
    }
  }

  lemma FirstAtNext(roles: seq<SimpleRole>, role: SimpleRole, i: int)
    requires roles != [] && roles[0].environmentType != role.environmentType
    ensures FirstAt(roles, role, i + 1) <==> FirstAt(roles[1..], role, i)
  {
    if FirstAt(roles[1..], role, i) {
      forall j | 0 <= j < i + 1 ensures roles[j].environmentType != role.environmentType {
        assert j > 0 ==> roles[1..][j - 1] == roles[j];
      }
    }
    if FirstAt(roles, role, i + 1) {
      assert forall j :: 0 <= j < i ==> roles[1..][j] == roles[j + 1];
    }
  }

  /**
   On any list the step updates the map at the granted environment if and only if the role,
   when it is listed already, is listed before every other row of its environment; on a
   list with one row per environment that always holds.
   */
  lemma StepUpdatesMap(roles: seq<SimpleRole>, role: SimpleRole)
    ensures ToMap(Granted(roles, role)) == ToMap(roles)[role.environmentType := role.roleName] <==>
            (role in roles ==> exists i :: FirstAt(roles, role, i))
    ensures DistinctEnvironments(roles) ==>
              && DistinctEnvironments(Granted(roles, role))
              && ToMap(Granted(roles, role)) == ToMap(roles)[role.environmentType := role.roleName]
  {
    if role in roles {
      ToMapMeaning(roles, role);
      assert ToMap(roles)[role.environmentType := role.roleName][role.environmentType] == role.roleName;
      if DistinctEnvironments(roles) {
        var i :| 0 <= i < |roles| && roles[i] == role;
        assert FirstAt(roles, role, i);
      }
    } else {
      AssignUpdatesMap(roles, role);
      if DistinctEnvironments(roles) {
        AssignKeepsEnvironmentsDistinct(roles, role);
      }
    }
  }

  function GrantAll(roles: seq<SimpleRole>, grants: seq<SimpleRole>): seq<SimpleRole> {
    if grants == [] then roles else Granted(GrantAll(roles, grants[..|grants| - 1]), grants[|grants| - 1])
  }

  function LastPerEnvironment(grants: seq<SimpleRole>): map<string, string> {
    if grants == [] then map[]
    else
      var last := grants[|grants| - 1];
      LastPerEnvironment(grants[..|grants| - 1])[last.environmentType := last.roleName]
  }

  lemma LaterOverrides(a: map<string, string>, b: map<string, string>, environment: string, name: string)
    ensures (a + b)[environment := name] == a + b[environment := name]
  {
  }

  /** Granting any sequence of roles leaves, per environment, the last role granted, else the old one. */
  lemma {:induction false} GrantAllKeepsLast(roles: seq<SimpleRole>, grants: seq<SimpleRole>)
    requires DistinctEnvironments(roles)
    ensures DistinctEnvironments(GrantAll(roles, grants))
    ensures ToMap(GrantAll(roles, grants)) == ToMap(roles) + LastPerEnvironment(grants)
  {
    if grants == [] {
    } else {
      var before, last := grants[..|grants| - 1], grants[|grants| - 1];
      GrantAllKeepsLast(roles, before);
      StepUpdatesMap(GrantAll(roles, before), last);
      LaterOverrides(ToMap(roles), LastPerEnvironment(before), last.environmentType, last.roleName);
    }
  }

  // ---------- The step on the workspace ----------

  /**
   One Grant call of a connector configured for `env`; `stored` says whether the server
   stores the update it sends, and `reported` whether the request is taken for a success.
   */
  datatype Event = Event(resourceId: string, env: string, roleName: string, stored: bool, reported: bool) {
    function Role(): SimpleRole {
      SimpleRole(env, roleName)
    }
  }

  datatype Outcome = Failed(error: Error) | AlreadyExists | Written(id: int, roles: seq<SimpleRole>)

  /** The update request a call sends. */
  datatype Update = Update(id: int, roles: seq<SimpleRole>)

  function ToSimple(rows: seq<CollaboratorPrivilege>): (roles: seq<SimpleRole>)
    ensures |roles| == |rows| && forall i :: 0 <= i < |rows| ==> roles[i] == rows[i].Simple()
  {
    seq(|rows|, i requires 0 <= i < |rows| => rows[i].Simple())
  }

  /** Parse the id, fetch the one row, step its list: an error, nothing to send, or an update to send. */
  function UpdateFor(remote: Remote, event: Event): Result<Option<Update>> {
    match Atoi(event.resourceId)
    case Err(e) => Err(e)
    case Ok(id) =>
      match remote.Privileges(id)
      case Err(e) => Err(e)
      case Ok(rows) =>
        match ListStep(ToSimple(rows), event.Role())
        case None => Ok(None)
        case Some(roles) => Ok(Some(Update(id, roles)))
  }

  predicate Sends(remote: Remote, event: Event) {
    UpdateFor(remote, event).Ok? && UpdateFor(remote, event).value.Some?
  }

  function Sent(remote: Remote, event: Event): Update
    requires Sends(remote, event)
  {
    UpdateFor(remote, event).value.value
  }

  /** The workspace after the call, and the call's outcome. */
  function Step(remote: Remote, event: Event): (Remote, Outcome) {
    match UpdateFor(remote, event)
    case Err(e) => (remote, Failed(e))
    case Ok(None) => (remote, AlreadyExists)
    case Ok(Some(update)) =>
      (if event.stored then remote.Store(update.id, update.roles) else remote,
       if event.reported then Written(update.id, update.roles) else Failed(RequestFailed))
  }

  function Run(remote: Remote, events: seq<Event>): Remote {
    if events == [] then remote else Step(Run(remote, events[..|events| - 1]), events[|events| - 1]).0
  }

  /** A collaborator whose table does not have exactly one row cannot be granted anything. */
  lemma GuardRejects(remote: Remote, event: Event, id: int)
    requires Atoi(event.resourceId) == Ok(id)
    ensures id in remote.rows && |remote.rows[id]| != 1 <==> Step(remote, event) == (remote, Failed(NotExactlyOneRow))
  {
    var privileges := remote.Privileges(id);
  }

  /**
   The list step alone does nothing on a list that hides the granted role behind another one
   of its environment; no Grant call gets there, because the guard rejects every such table.
   */
  lemma StepMissesHiddenRole(remote: Remote, event: Event, id: int)
    requires Atoi(event.resourceId) == Ok(id) && id in remote.rows
    requires RolesOf(remote, id) == [SimpleRole("prod", "Admin"), SimpleRole("prod", "Operator")]
    requires event.Role() == SimpleRole("prod", "Operator")
    ensures ListStep(RolesOf(remote, id), event.Role()) == None
    ensures ToMap(RolesOf(remote, id))["prod"] == "Admin"
    ensures Step(remote, event) == (remote, Failed(NotExactlyOneRow))
  {
    var roles := RolesOf(remote, id);
    assert roles[1] in roles;
    GuardRejects(remote, event, id);
  }

  function RolesOf(remote: Remote, id: int): seq<SimpleRole>
    requires id in remote.rows
  {
    ToSimple(remote.rows[id])
  }

  /**
   Every update sent, from any workspace whatsoever: exactly one row was there; one row is
   sent if it was of the granted environment and two if it was not, the other environment's
   row first and unchanged; the rows are of distinct environments and the new role is among
   them. The workspace changes to what was sent if and only if the server stores it.
   */
  lemma WritesAreOneOrTwoRows(remote: Remote, event: Event)
    requires Sends(remote, event)
    ensures var Update(id, sent) := Sent(remote, event);
            && id in remote.rows && |remote.rows[id]| == 1
            && sent == (var row := RolesOf(remote, id)[0];
                        if row.environmentType == event.env then [event.Role()] else [row, event.Role()])
            && DistinctEnvironments(sent)
            && event.Role() in sent
            && event.Role() !in RolesOf(remote, id)
            && Step(remote, event).0 == if event.stored then remote.Store(id, sent) else remote
  {
    var id := Atoi(event.resourceId).value;
    var roles := RolesOf(remote, id);
    assert roles == [roles[0]];
    assert roles[1..] == [];
    if roles[0].environmentType == event.env {
      assert Assign(roles, event.Role()) == [event.Role()];
    } else {
      assert Assign(roles, event.Role()) == [roles[0], event.Role()];
    }
  }

  /**
   The outcome of every call, on every workspace: what makes it fail before anything is
   sent, when the role exists already, and what becomes of an update that is sent.
   */
  lemma OutcomeMeaning(remote: Remote, event: Event)
    ensures Atoi(event.resourceId).Err? ==> Step(remote, event) == (remote, Failed(NotANumber))
    ensures Atoi(event.resourceId).Ok? ==>
              var id := Atoi(event.resourceId).value;
              && (id !in remote.rows ==> Step(remote, event) == (remote, Failed(RequestFailed)))
              && (id in remote.rows && |remote.rows[id]| != 1 ==>
                    Step(remote, event) == (remote, Failed(NotExactlyOneRow)))
    ensures Step(remote, event).1 == AlreadyExists <==>
            && Atoi(event.resourceId).Ok?
            && var id := Atoi(event.resourceId).value;
               && id in remote.rows && |remote.rows[id]| == 1
               && remote.rows[id][0].environmentType == event.env && remote.rows[id][0].name == event.roleName
    ensures Sends(remote, event) <==>
            && Atoi(event.resourceId).Ok?
            && var id := Atoi(event.resourceId).value;
               && id in remote.rows && |remote.rows[id]| == 1
               && !(remote.rows[id][0].environmentType == event.env && remote.rows[id][0].name == event.roleName)
    ensures Step(remote, event).1.Written? <==> Sends(remote, event) && event.reported
    ensures Sends(remote, event) && !event.reported ==> Step(remote, event).1 == Failed(RequestFailed)
    ensures Sends(remote, event) ==>
              Sent(remote, event).id == Atoi(event.resourceId).value &&
              (event.reported ==> Step(remote, event).1 == Written(Sent(remote, event).id, Sent(remote, event).roles))
  {
    AtoiMeaning(event.resourceId);
    if Atoi(event.resourceId).Ok? {
      var id := Atoi(event.resourceId).value;
      var privileges := remote.Privileges(id);
      if id in remote.rows && |remote.rows[id]| == 1 {
        var roles := RolesOf(remote, id);
        assert event.Role() in roles <==> roles[0] == event.Role();
      }
    }
  }

  /**
   Nothing changes unless an update is sent and stored, and then nothing but that
   collaborator's rows and its roles in the listing.
   */
  lemma StepFrame(remote: Remote, event: Event, id: int)
    ensures (Sends(remote, event) && event.stored) || Step(remote, event).0 == remote
    ensures id in Step(remote, event).0.rows <==> id in remote.rows
    ensures id in remote.rows && !(Sends(remote, event) && event.stored && Sent(remote, event).id == id) ==>
              Step(remote, event).0.rows[id] == remote.rows[id]
    ensures Step(remote, event).0.members.Ok? <==> remote.members.Ok?
    ensures remote.members.Err? ==> Step(remote, event).0.members == remote.members
    ensures remote.members.Ok? ==>
              var members, members' := remote.members.value, Step(remote, event).0.members.value;
              && |members'| == |members|
              && forall i :: 0 <= i < |members| ==>
                   members'[i] == if Sends(remote, event) && event.stored && Sent(remote, event).id == members[i].id
                                  then Collaborator(members[i].id, Sent(remote, event).roles) else members[i]
  {
  }

  lemma StoredRoles(remote: Remote, id: int, roles: seq<SimpleRole>)
    ensures RolesOf(remote.Store(id, roles), id) == roles
  {
  }

  /** A call that sends an update reports "written" truthfully if and only if the server stored it. */
  lemma WrittenIsStoredIff(remote: Remote, event: Event)
    requires Step(remote, event).1.Written?
    ensures var Written(id, roles) := Step(remote, event).1;
            id in Step(remote, event).0.rows && (RolesOf(Step(remote, event).0, id) == roles <==> event.stored)
  {
    WritesAreOneOrTwoRows(remote, event);
    StoredRoles(remote, Sent(remote, event).id, Sent(remote, event).roles);
  }

  /**
   Granting the same role again, however its collaborator is spelled, writes nothing: it
   exists after a one-row write, and after a two-row write the call fails.
   */
  lemma RegrantWritesNothing(remote: Remote, event: Event, again: Event)
    requires Sends(remote, event) && event.stored
    requires Atoi(again.resourceId) == Atoi(event.resourceId) && again.Role() == event.Role()
    ensures var after := Step(remote, event).0;
            && Step(after, again).0 == after
            && Step(after, again).1 ==
               if |Sent(remote, event).roles| == 1 then AlreadyExists else Failed(NotExactlyOneRow)
  {
    WritesAreOneOrTwoRows(remote, event);
    StoredRoles(remote, Sent(remote, event).id, Sent(remote, event).roles);
  }

  // ---------- Whole runs ----------

  /** The roles of the events that reach collaborator `id` and are stored if sent, in order. */
  function GrantsTo(events: seq<Event>, id: int): seq<SimpleRole> {
    if events == [] then []
    else
      var last := events[|events| - 1];
      GrantsTo(events[..|events| - 1], id) +
      if Atoi(last.resourceId) == Ok(id) && last.stored then [last.Role()] else []
  }

  /** The step behind the one-row guard. */
  function GuardedStep(roles: seq<SimpleRole>, role: SimpleRole): seq<SimpleRole> {
    if |roles| != 1 then roles else Granted(roles, role)
  }

  function GuardedRun(roles: seq<SimpleRole>, grants: seq<SimpleRole>): seq<SimpleRole> {
    if grants == [] then roles else GuardedStep(GuardedRun(roles, grants[..|grants| - 1]), grants[|grants| - 1])
  }

  lemma StepOnCollaborator(remote: Remote, event: Event, id: int)
    requires id in remote.rows
    ensures id in Step(remote, event).0.rows
    ensures RolesOf(Step(remote, event).0, id) ==
            if Atoi(event.resourceId) == Ok(id) && event.stored then GuardedStep(RolesOf(remote, id), event.Role())
            else RolesOf(remote, id)
  {
    StepFrame(remote, event, id);
    if Sends(remote, event) && Sent(remote, event).id == id {
      StoredRoles(remote, id, Sent(remote, event).roles);
    }
  }

  lemma GuardedRunNext(roles: seq<SimpleRole>, grants: seq<SimpleRole>, role: SimpleRole)
    ensures GuardedRun(roles, grants + [role]) == GuardedStep(GuardedRun(roles, grants), role)
  {
    assert (grants + [role])[..|grants + [role]| - 1] == grants;
  }

  /** On the workspace, a run acts on each collaborator as the guarded run of the grants that reach it. */
  lemma {:induction false} RunOnCollaborator(remote: Remote, events: seq<Event>, id: int)
    ensures id in Run(remote, events).rows <==> id in remote.rows
    ensures id in remote.rows ==>
              RolesOf(Run(remote, events), id) == GuardedRun(RolesOf(remote, id), GrantsTo(events, id))
  {
    if events == [] {
    } else {
      var front, last := events[..|events| - 1], events[|events| - 1];
      RunOnCollaborator(remote, front, id);
      StepFrame(Run(remote, front), last, id);
      if id in remote.rows {
        StepOnCollaborator(Run(remote, front), last, id);
        if Atoi(last.resourceId) == Ok(id) && last.stored {
          GuardedRunNext(RolesOf(remote, id), GrantsTo(front, id), last.Role());
        } else {
          assert GrantsTo(events, id) == GrantsTo(front, id);
        }
      }
    }
  }

  /** How many grants at the start of the list are for environment `env`. */
  function Leading(grants: seq<SimpleRole>, env: string): (n: nat)
    ensures n <= |grants|
    ensures forall i :: 0 <= i < n ==> grants[i].environmentType == env
    ensures n < |grants| ==> grants[n].environmentType != env
  {
    if grants == [] || grants[0].environmentType != env then 0 else 1 + Leading(grants[1..], env)
  }

  lemma LeadingOfFront(grants: seq<SimpleRole>, env: string)
    requires grants != []
    ensures var front := grants[..|grants| - 1];
            Leading(grants, env) == if Leading(front, env) < |front| then Leading(front, env)
                                    else if grants[|front|].environmentType == env then |grants| else |front|
  {
    var front := grants[..|grants| - 1];
    var n, m := Leading(grants, env), Leading(front, env);
    assert forall i :: 0 <= i < |front| ==> front[i] == grants[i];
  }

  /**
   The closed form of every run from one row: the grants of that row's environment replace
   it one after the other; the first grant of another environment adds a second row; and
   from then on nothing is ever written.
   */
  ghost function AfterRun(row: SimpleRole, grants: seq<SimpleRole>): seq<SimpleRole> {
    var n := Leading(grants, row.environmentType);
    var last := if n == 0 then row else grants[n - 1];
    if n < |grants| then [last, grants[n]] else [last]
  }

  lemma {:induction false} GuardedRunClosedForm(row: SimpleRole, grants: seq<SimpleRole>)
    ensures GuardedRun([row], grants) == AfterRun(row, grants)
    ensures AfterRun(row, grants)[0].environmentType == row.environmentType
  {
    if grants == [] {
    } else {
      var front, last := grants[..|grants| - 1], grants[|grants| - 1];
      GuardedRunClosedForm(row, front);
      LeadingOfFront(grants, row.environmentType);
      if Leading(front, row.environmentType) == |front| {
        var current := AfterRun(row, front)[0];
        assert AfterRun(row, front) == [current];
        assert [current][1..] == [];
        assert Assign([current], last) ==
               if current.environmentType == last.environmentType then [last] else [current, last];
      }
    }
  }

  /** A table without exactly one row is never touched again. */
  lemma {:induction false} OtherTablesAreFrozen(roles: seq<SimpleRole>, grants: seq<SimpleRole>)
    requires |roles| != 1
    ensures GuardedRun(roles, grants) == roles
  {
    if grants == [] {
    } else {
      OtherTablesAreFrozen(roles, grants[..|grants| - 1]);
    }
  }

  /** What any run of grants, to any users and from connectors of any environments, makes of one collaborator. */
  lemma RunClosedForm(remote: Remote, events: seq<Event>, id: int)
    requires id in remote.rows
    ensures id in Run(remote, events).rows
    ensures RolesOf(Run(remote, events), id) ==
            if |remote.rows[id]| == 1 then AfterRun(RolesOf(remote, id)[0], GrantsTo(events, id))
            else RolesOf(remote, id)
  {
    RunOnCollaborator(remote, events, id);
    if |remote.rows[id]| == 1 {
      assert RolesOf(remote, id) == [RolesOf(remote, id)[0]];
      GuardedRunClosedForm(RolesOf(remote, id)[0], GrantsTo(events, id));
    } else {
      OtherTablesAreFrozen(RolesOf(remote, id), GrantsTo(events, id));
    }
  }

  // ---------- Grants and the next sync ----------

  lemma {:induction false} RunKeepsMembers(remote: Remote, events: seq<Event>)
    ensures Run(remote, events).members.Ok? <==> remote.members.Ok?
    ensures remote.members.Ok? ==>
              && |Run(remote, events).members.value| == |remote.members.value|
              && forall i :: 0 <= i < |remote.members.value| ==>
                               Run(remote, events).members.value[i].id == remote.members.value[i].id
  {
    if events == [] {
    } else {
      RunKeepsMembers(remote, events[..|events| - 1]);
    }
  }

  predicate HasOneRow(remote: Remote, id: int) {
    id in remote.rows && |remote.rows[id]| == 1
  }

  /** Every grant that reaches the collaborator is for the environment of its one row. */
  ghost predicate StaysInEnvironment(remote: Remote, events: seq<Event>, c: Collaborator)
    requires HasOneRow(remote, c.id)
  {
    forall role :: role in GrantsTo(events, c.id) ==> role.environmentType == remote.rows[c.id][0].environmentType
  }

  /** A run leaves a collaborator with one row if and only if it had one and no grant crossed to another environment. */
  lemma MemberAfterRun(remote: Remote, events: seq<Event>, c: Collaborator)
    ensures HasOneRow(Run(remote, events), c.id) <==>
            HasOneRow(remote, c.id) && StaysInEnvironment(remote, events, c)
  {
    RunOnCollaborator(remote, events, c.id);
    if c.id in remote.rows {
      RunClosedForm(remote, events, c.id);
      assert |RolesOf(Run(remote, events), c.id)| == |Run(remote, events).rows[c.id]|;
      if HasOneRow(remote, c.id) {
        OneRowAfterRun(RolesOf(remote, c.id)[0], GrantsTo(events, c.id));
      }
    }
  }

  lemma OneRowAfterRun(row: SimpleRole, grants: seq<SimpleRole>)
    ensures |AfterRun(row, grants)| == 1 <==>
            forall role :: role in grants ==> role.environmentType == row.environmentType
  {
    var n := Leading(grants, row.environmentType);
    if n < |grants| {
      assert grants[n] in grants;
    }
  }

  /**
   From any workspace, the collaborator cache can be built after a run of grants if and only
   if the listing works, every listed collaborator has one row to begin with, and no grant
   that reaches it crosses to another environment than that row's. A crossing grant
   succeeds, and every later build of the cache fails on its two rows.
   */
  lemma SyncAfterRun(remote: Remote, events: seq<Event>)
    ensures BuildError(Run(remote, events)).None? <==>
            && remote.members.Ok?
            && forall c :: c in remote.members.value ==>
                             HasOneRow(remote, c.id) && StaysInEnvironment(remote, events, c)
  {
    var after := Run(remote, events);
    BuildSucceedsIff(after);
    RunKeepsMembers(remote, events);
    if remote.members.Ok? {
      var members, members' := remote.members.value, after.members.value;
      if forall c :: c in members ==> HasOneRow(remote, c.id) && StaysInEnvironment(remote, events, c) {
        forall c | c in members' ensures c.id in after.rows && |after.rows[c.id]| == 1 {
          var i :| 0 <= i < |members'| && members'[i] == c;
          assert members[i] in members;
          MemberAfterRun(remote, events, members[i]);
        }
      } else {
        var c :| c in members && !(HasOneRow(remote, c.id) && StaysInEnvironment(remote, events, c));
        var i :| 0 <= i < |members| && members[i] == c;
        MemberAfterRun(remote, events, c);
        assert members'[i] in members' && !HasOneRow(after, members'[i].id);
      }
    }
  }

  /** A workspace with one collaborator, who is an Admin in production. */
  function OneAdmin(): Remote {
    Remote(Ok([Collaborator(1, [SimpleRole("prod", "Admin")])]),
           map[1 := [CollaboratorPrivilege("prod", "Admin", map[], [])]],
           _ => map[], _ => [])
  }

  /** What that collaborator's grants send: one row for production, two rows for another environment. */
  lemma GrantToOneAdmin(event: Event)
    requires event.resourceId == "1" && event.Role() != SimpleRole("prod", "Admin")
    ensures BuildError(OneAdmin()).None?
    ensures Sends(OneAdmin(), event)
    ensures Sent(OneAdmin(), event) ==
            Update(1, if event.env == "prod" then [event.Role()] else [SimpleRole("prod", "Admin"), event.Role()])
  {
    assert Itoa(1) == "1";
    AtoiOfItoa(1);
    assert RolesOf(OneAdmin(), 1) == [SimpleRole("prod", "Admin")];
    WritesAreOneOrTwoRows(OneAdmin(), event);
    BuildSucceedsIff(OneAdmin());
  }

  /** One successful grant for the test environment, after which the collaborator cache can no longer be built. */
  lemma CrossingGrantStopsSync()
    ensures var (after, outcome) := Step(OneAdmin(), Event("1", "test", "Operator", true, true));
            && BuildError(OneAdmin()).None?
            && outcome == Written(1, [SimpleRole("prod", "Admin"), SimpleRole("test", "Operator")])
            && BuildError(after) == Some(NotExactlyOneRow)
  {
    var event := Event("1", "test", "Operator", true, true);
    GrantToOneAdmin(event);
    var members := Step(OneAdmin(), event).0.members.value;
    assert |members| == 1 && members[0].id == 1;
  }

  /** A grant that is reported as written and changes nothing: the server failed with a status taken for a success. */
  lemma LostGrant()
    ensures Step(OneAdmin(), Event("1", "prod", "Operator", false, true)) ==
            (OneAdmin(), Written(1, [SimpleRole("prod", "Operator")]))
  {
    GrantToOneAdmin(Event("1", "prod", "Operator", false, true));
  }

  /** A stored one-row grant to a listed collaborator is what the next sync indexes for it. */
  lemma GrantShowsInNextSync(remote: Remote, event: Event, i: nat)
    requires BuildError(remote).None? && Sends(remote, event) && event.stored
    requires i < |remote.members.value| && remote.members.value[i].id == Sent(remote, event).id
    requires |Sent(remote, event).roles| == 1
    ensures var after := Step(remote, event).0;
            && BuildError(after).None?
            && |Users(after)| == |remote.members.value|
            && Users(after)[i].user.id == Sent(remote, event).id
            && Users(after)[i].user.roles == [event.Role()]
            && RoleKey(event.roleName) in KeysOf(event.env, Users(after)[i])
  {
    var after := Step(remote, event).0;
    WritesAreOneOrTwoRows(remote, event);
    BuildSucceedsIff(remote);
    BuildSucceedsIff(after);
    SuccessfulBuildLoadsAll(after);
    assert event.Role() in Users(after)[i].user.roles;
  }
}
