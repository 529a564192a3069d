/**
 Who may see a ticket: the per-ticket decision, the classification of users who only belong to
 panel teams, and the panel list such users are shown.
 */
module Visibility {
  import opened Wrappers
  import opened Sequences

  type Guild = nat
  type User = nat
  type Role = nat
  type Team = nat
  type Panel = nat

  /** The tables and Discord objects consulted, with their relational meaning. */
  datatype Db = Db(
    botAdmins: set<User>,
    overrides: set<Guild>,
    staff: set<User>,
    owners: map<Guild, User>,
    members: map<(Guild, User), set<Role>>,   // the roles of every guild member
    admins: set<(Guild, User)>,
    adminRoles: set<(Guild, Role)>,
    supports: set<(Guild, User)>,
    supportRoles: set<(Guild, Role)>,
    teams: map<Team, Guild>,
    teamUsers: set<(Team, User)>,
    teamRoles: set<(Team, Role)>,
    panelTeams: set<(Panel, Team)>,
    withDefaultTeam: set<Panel>)

  datatype Ticket = Ticket(opener: User, guild: Guild, panel: Option<Panel>)

  /** The calls that can fail. */
  datatype Query =
    | BotContext | ActiveOverride | IsStaff | GetGuild | GetMember | IsAdmin | AdminRoles | IsSupport | SupportRoles
    | GetPanel | GetTeams | InTeams | RolesInTeams | AllTeams | TeamsForUser | TeamsForRoles | PanelsByTeams

  datatype Fault = Unavailable | NotInServer

  type Answer = Result<bool, Fault>

  // ----- queries -----

  predicate Holds(db: Db, guild: Guild, user: User, granted: set<(Guild, Role)>)
    requires (guild, user) in db.members
  {
    exists r | r in db.members[(guild, user)] :: (guild, r) in granted
  }

  /** IsSupportSubset. */
  predicate InAnyTeam(db: Db, guild: Guild, user: User, teams: set<Team>) {
    exists t | t in teams :: t in db.teams && db.teams[t] == guild && (t, user) in db.teamUsers
  }

  predicate HasTeamRole(db: Db, guild: Guild, user: User, t: Team)
    requires (guild, user) in db.members
  {
    exists r | r in db.members[(guild, user)] :: (t, r) in db.teamRoles
  }

  /** IsSupportAnySubset. */
  predicate RoleInAnyTeam(db: Db, guild: Guild, user: User, teams: set<Team>)
    requires (guild, user) in db.members
  {
    exists t | t in teams :: t in db.teams && db.teams[t] == guild && HasTeamRole(db, guild, user, t)
  }

  function TeamsOfPanel(db: Db, panel: Panel): set<Team> {
    set p | p in db.panelTeams && p.0 == panel :: p.1
  }

  function TeamsOfGuild(db: Db, guild: Guild): set<Team> {
    set t | t in db.teams && db.teams[t] == guild
  }

  function DirectTeams(db: Db, guild: Guild, user: User): set<Team> {
    set t | t in db.teams && db.teams[t] == guild && (t, user) in db.teamUsers
  }

  function RoleTeams(db: Db, guild: Guild, user: User): set<Team>
    requires (guild, user) in db.members
  {
    set t | t in db.teams && db.teams[t] == guild && HasTeamRole(db, guild, user, t)
  }

  function PanelsOfTeams(db: Db, teams: set<Team>): set<Panel> {
    set p | p in db.panelTeams && p.1 in teams :: p.0
  }

  // ----- the decision procedures -----

  /** Bot admins, staff under an override, the owner, admins and admin roles; None when none of these applies. */
  function Override(db: Db, up: Query -> bool, guild: Guild, user: User): Option<Answer> {
    if !up(BotContext) then Some(Err(Unavailable))
    else if user in db.botAdmins then Some(Ok(true))
    else if !up(ActiveOverride) then Some(Err(Unavailable))
    else if guild in db.overrides && !up(IsStaff) then Some(Err(Unavailable))
    else if guild in db.overrides && user in db.staff then Some(Ok(true))
    else if !up(GetGuild) || guild !in db.owners then Some(Err(Unavailable))
    else if db.owners[guild] == user then Some(Ok(true))
    else if !up(GetMember) || (guild, user) !in db.members then Some(Err(NotInServer))
    else if !up(IsAdmin) then Some(Err(Unavailable))
    else if (guild, user) in db.admins then Some(Ok(true))
    else if !up(AdminRoles) then Some(Err(Unavailable))
    else if Holds(db, guild, user, db.adminRoles) then Some(Ok(true))
    else None
  }

  function IsOnDefaultTeam(db: Db, up: Query -> bool, guild: Guild, user: User): Answer
    requires (guild, user) in db.members
  {
    if !up(IsSupport) then Err(Unavailable)
    else if (guild, user) in db.supports then Ok(true)
    else if !up(SupportRoles) then Err(Unavailable)
    else Ok(Holds(db, guild, user, db.supportRoles))
  }

  function HasPermissionToViewTicket(db: Db, up: Query -> bool, guild: Guild, user: User, ticket: Ticket): Answer {
    if ticket.opener == user && ticket.guild == guild then Ok(true)
    else
      var override := Override(db, up, guild, user);
      if override.Some? then override.value
      else if ticket.panel.None? then IsOnDefaultTeam(db, up, guild, user)
      else
        var panel := ticket.panel.value;
        if !up(GetPanel) then Err(Unavailable)
        else
          var byDefault := if panel in db.withDefaultTeam then IsOnDefaultTeam(db, up, guild, user) else Ok(false);
          if byDefault != Ok(false) then byDefault
          else if !up(GetTeams) then Err(Unavailable)
          else
            var teams := TeamsOfPanel(db, panel);
            if teams == {} then Ok(false)
            else if !up(InTeams) then Err(Unavailable)
            else if InAnyTeam(db, guild, user, teams) then Ok(true)
            else if !up(RolesInTeams) then Err(Unavailable)
            else Ok(RoleInAnyTeam(db, guild, user, teams))
  }

  function IsPanelTeamMemberOnly(db: Db, up: Query -> bool, guild: Guild, user: User): Answer {
    var override := Override(db, up, guild, user);
    if override.Some? then (if override.value.Ok? then Ok(false) else override.value)
    else
      var onDefault := IsOnDefaultTeam(db, up, guild, user);
      if onDefault.Err? then onDefault
      else if onDefault.value then Ok(false)
      else if !up(AllTeams) then Err(Unavailable)
      else
        var teams := TeamsOfGuild(db, guild);
        if teams == {} then Ok(false)
        else if !up(InTeams) then Err(Unavailable)
        else if InAnyTeam(db, guild, user, teams) then Ok(true)
        else if !up(RolesInTeams) then Err(Unavailable)
        else Ok(RoleInAnyTeam(db, guild, user, teams))
  }

  function AccessiblePanels(db: Db, guild: Guild, user: User): set<Panel>
    requires (guild, user) in db.members
  {
    PanelsOfTeams(db, DirectTeams(db, guild, user) + RoleTeams(db, guild, user))
  }

  /** `direct` and `viaRoles` are what the two team queries answer. */
  method GetAccessiblePanelIds(db: Db, up: Query -> bool, guild: Guild, user: User, direct: seq<Team>,
                               viaRoles: seq<Team>)
    returns (ids: Result<set<Panel>, Fault>)
    requires ToSet(direct) == DirectTeams(db, guild, user)
    requires (guild, user) in db.members ==> ToSet(viaRoles) == RoleTeams(db, guild, user)
    ensures ids.Ok? ==> (guild, user) in db.members && ids.value == AccessiblePanels(db, guild, user)
    ensures ids.Ok? || ids.error == NotInServer
            || exists q | q in {BotContext, TeamsForUser, TeamsForRoles, PanelsByTeams} :: !up(q)
    ensures ids == Err(NotInServer) ==> !up(GetMember) || (guild, user) !in db.members
  {
    if !up(BotContext) {
      return Err(Unavailable);
    }
    if !up(GetMember) || (guild, user) !in db.members {
      return Err(NotInServer);
    }
    if !up(TeamsForUser) || !up(TeamsForRoles) {
      return Err(Unavailable);
    }
    var teamIdSet := Combined(direct, viaRoles);
    if |teamIdSet| == 0 {
      assert AccessiblePanels(db, guild, user) == {};
      return Ok({});
    }
    var allTeamIds := KeysOf(teamIdSet);
    if !up(PanelsByTeams) {
      return Err(Unavailable);
    }
    return Ok(PanelsOfTeams(db, ToSet(allTeamIds)));
  }

  /** The two team lists in one set. */
  method Combined(direct: seq<Team>, viaRoles: seq<Team>) returns (teamIdSet: set<Team>)
    ensures teamIdSet == ToSet(direct) + ToSet(viaRoles)
  {
    teamIdSet := {};
    for i := 0 to |direct|
      invariant teamIdSet == ToSet(direct[..i])
    {
      teamIdSet := teamIdSet + {direct[i]};
      assert direct[..i + 1] == direct[..i] + [direct[i]];
    }
    assert direct[..|direct|] == direct;
    for i := 0 to |viaRoles|
      invariant teamIdSet == ToSet(direct) + ToSet(viaRoles[..i])
    {
      teamIdSet := teamIdSet + {viaRoles[i]};
      assert viaRoles[..i + 1] == viaRoles[..i] + [viaRoles[i]];
    }
    assert viaRoles[..|viaRoles|] == viaRoles;
  }

  /** The set as a list, in whatever order the map is walked. */
  method KeysOf(teamIdSet: set<Team>) returns (allTeamIds: seq<Team>)
    ensures ToSet(allTeamIds) == teamIdSet && Distinct(allTeamIds)
  {
    allTeamIds := [];
    var left := teamIdSet;
    while left != {}
      invariant left <= teamIdSet && ToSet(allTeamIds) == teamIdSet - left && Distinct(allTeamIds)
      decreases |left|
    {
      var id :| id in left;
      assert id !in ToSet(allTeamIds);
      DistinctSnoc(allTeamIds, id);
      assert ToSet(allTeamIds + [id]) == ToSet(allTeamIds) + {id};
      allTeamIds := allTeamIds + [id];
      left := left - {id};
    }
  }

  // ----- what the procedures decide, stated without their order of checks -----

  predicate Opened(user: User, guild: Guild, ticket: Ticket) {
    ticket.opener == user && ticket.guild == guild
  }

  ghost predicate HasFullAccess(db: Db, guild: Guild, user: User) {
    || user in db.botAdmins
    || (guild in db.overrides && user in db.staff)
    || (guild in db.owners && db.owners[guild] == user)
    || ((guild, user) in db.members
        && ((guild, user) in db.admins || exists r | r in db.members[(guild, user)] :: (guild, r) in db.adminRoles))
  }

  ghost predicate OnDefaultTeam(db: Db, guild: Guild, user: User) {
    && (guild, user) in db.members
    && ((guild, user) in db.supports || exists r | r in db.members[(guild, user)] :: (guild, r) in db.supportRoles)
  }

  /** The user belongs to team t of the guild, directly or through a role. */
  ghost predicate BelongsTo(db: Db, guild: Guild, user: User, t: Team) {
    && (guild, user) in db.members && t in db.teams && db.teams[t] == guild
    && ((t, user) in db.teamUsers || exists r | r in db.members[(guild, user)] :: (t, r) in db.teamRoles)
  }

  ghost predicate CanView(db: Db, guild: Guild, user: User, ticket: Ticket) {
    || Opened(user, guild, ticket)
    || HasFullAccess(db, guild, user)
    || ((ticket.panel.Some? ==> ticket.panel.value in db.withDefaultTeam) && OnDefaultTeam(db, guild, user))
    || (ticket.panel.Some? && exists t | t in db.teams ::
          (ticket.panel.value, t) in db.panelTeams && BelongsTo(db, guild, user, t))
  }

  ghost predicate PanelTeamOnly(db: Db, guild: Guild, user: User) {
    && !HasFullAccess(db, guild, user) && !OnDefaultTeam(db, guild, user)
    && exists t | t in db.teams :: BelongsTo(db, guild, user, t)
  }

  lemma InTeamsIff(db: Db, guild: Guild, user: User, teams: set<Team>)
    requires (guild, user) in db.members
    ensures (InAnyTeam(db, guild, user, teams) || RoleInAnyTeam(db, guild, user, teams)) <==>
            exists t | t in db.teams :: t in teams && BelongsTo(db, guild, user, t)
  {
  }

  lemma OverrideIs(db: Db, up: Query -> bool, guild: Guild, user: User)
    ensures var o := Override(db, up, guild, user);
            && (o.Some? && o.value.Ok? ==> o.value.value && HasFullAccess(db, guild, user))
            && (o.None? ==> !HasFullAccess(db, guild, user) && (guild, user) in db.members)
  {
  }

  lemma TeamsOfPanelAre(db: Db, panel: Panel, t: Team)
    ensures t in TeamsOfPanel(db, panel) <==> (panel, t) in db.panelTeams
  {
  }

  /** Whatever calls fail, an answer is never wrong; it is the order-free condition. */
  lemma AnswerIsCanView(db: Db, up: Query -> bool, guild: Guild, user: User, ticket: Ticket)
    requires HasPermissionToViewTicket(db, up, guild, user, ticket).Ok?
    ensures HasPermissionToViewTicket(db, up, guild, user, ticket).value <==> CanView(db, guild, user, ticket)
  {
    OverrideIs(db, up, guild, user);
    if !Opened(user, guild, ticket) && Override(db, up, guild, user).None? && ticket.panel.Some? {
      var panel := ticket.panel.value;
      InTeamsIff(db, guild, user, TeamsOfPanel(db, panel));
      forall t
        ensures t in TeamsOfPanel(db, panel) <==> (panel, t) in db.panelTeams
      {
        TeamsOfPanelAre(db, panel, t);
      }
    }
  }

  /** Whoever opened the ticket sees it, whatever calls fail. */
  lemma OpenerAlwaysSees(db: Db, up: Query -> bool, guild: Guild, user: User, ticket: Ticket)
    requires Opened(user, guild, ticket)
    ensures HasPermissionToViewTicket(db, up, guild, user, ticket) == Ok(true)
  {
  }

  /** With every call answered, only a user outside the server is turned away without an answer. */
  lemma AnswersWhenUp(db: Db, up: Query -> bool, guild: Guild, user: User, ticket: Ticket)
    requires (forall q :: up(q)) && guild in db.owners
    ensures var a := HasPermissionToViewTicket(db, up, guild, user, ticket);
            a.Err? <==> (guild, user) !in db.members && !CanView(db, guild, user, ticket)
  {
  }

  /** Likewise for the classification. */
  lemma ClassificationIsPanelTeamOnly(db: Db, up: Query -> bool, guild: Guild, user: User)
    requires IsPanelTeamMemberOnly(db, up, guild, user).Ok?
    ensures IsPanelTeamMemberOnly(db, up, guild, user).value <==> PanelTeamOnly(db, guild, user)
  {
    OverrideIs(db, up, guild, user);
    if Override(db, up, guild, user).None? {
      InTeamsIff(db, guild, user, TeamsOfGuild(db, guild));
      assert forall t | t in db.teams && BelongsTo(db, guild, user, t) :: t in TeamsOfGuild(db, guild);
    }
  }

  lemma AccessibleIff(db: Db, guild: Guild, user: User, panel: Panel)
    requires (guild, user) in db.members
    ensures panel in AccessiblePanels(db, guild, user) <==>
            exists t | t in db.teams :: (panel, t) in db.panelTeams && BelongsTo(db, guild, user, t)
  {
  }

  lemma FilterIsCanView(db: Db, up: Query -> bool, guild: Guild, user: User, ticket: Ticket)
    requires IsPanelTeamMemberOnly(db, up, guild, user) == Ok(true)
    ensures (guild, user) in db.members
    ensures CanView(db, guild, user, ticket) <==>
            Opened(user, guild, ticket)
              || (ticket.panel.Some? && ticket.panel.value in AccessiblePanels(db, guild, user))
  {
    OverrideIs(db, up, guild, user);
    ClassificationIsPanelTeamOnly(db, up, guild, user);
    if ticket.panel.Some? {
      AccessibleIff(db, guild, user, ticket.panel.value);
    }
  }

  /**
   For a user classified as panel-team-only, the panel list agrees with the decision for every ticket, whatever calls
   fail in either: an answer is yes exactly when the user opened the ticket or its panel is in the list.
   */
  lemma FilterAgrees(db: Db, up: Query -> bool, later: Query -> bool, guild: Guild, user: User, ticket: Ticket)
    requires IsPanelTeamMemberOnly(db, up, guild, user) == Ok(true)
    requires HasPermissionToViewTicket(db, later, guild, user, ticket).Ok?
    ensures (guild, user) in db.members
    ensures HasPermissionToViewTicket(db, later, guild, user, ticket).value <==>
            Opened(user, guild, ticket)
              || (ticket.panel.Some? && ticket.panel.value in AccessiblePanels(db, guild, user))
  {
    FilterIsCanView(db, up, guild, user, ticket);
    AnswerIsCanView(db, later, guild, user, ticket);
  }

  // ----- monotonicity -----

  /** More roles, memberships and permissions; guilds, teams and panels as before. */
  ghost predicate Extends(db: Db, more: Db) {
    && db.botAdmins <= more.botAdmins && db.overrides <= more.overrides && db.staff <= more.staff
    && db.owners == more.owners && db.teams == more.teams && db.withDefaultTeam == more.withDefaultTeam
    && (forall m | m in db.members :: m in more.members && db.members[m] <= more.members[m])
    && db.admins <= more.admins && db.adminRoles <= more.adminRoles
    && db.supports <= more.supports && db.supportRoles <= more.supportRoles
    && db.teamUsers <= more.teamUsers && db.teamRoles <= more.teamRoles && db.panelTeams <= more.panelTeams
  }

  lemma CanViewIsMonotone(db: Db, more: Db, guild: Guild, user: User, ticket: Ticket)
    requires Extends(db, more) && CanView(db, guild, user, ticket)
    ensures CanView(more, guild, user, ticket)
  {
  }

  /** Adding roles or memberships never turns a yes of the decision procedure into a no. */
  lemma ViewIsMonotone(db: Db, more: Db, up: Query -> bool, later: Query -> bool, guild: Guild, user: User,
                       ticket: Ticket)
    requires Extends(db, more) && HasPermissionToViewTicket(db, up, guild, user, ticket) == Ok(true)
    ensures HasPermissionToViewTicket(more, later, guild, user, ticket) != Ok(false)
  {
    AnswerIsCanView(db, up, guild, user, ticket);
    CanViewIsMonotone(db, more, guild, user, ticket);
    if HasPermissionToViewTicket(more, later, guild, user, ticket).Ok? {
      AnswerIsCanView(more, later, guild, user, ticket);
    }
  }
}
