// Who may see a record: the in-memory test, the SQL predicate, and the cache identity.

module Scopes {
  import opened Results
  import opened Models
  import opened Collections
  import opened TextBudget

  datatype ScopeError = NoScopes | DuplicateScopes | NoSession | NoTeams | BadIdentifier | BadOwner

  predicate IsControl(c: char) {
    c as int < 32 || c as int == 127
  }

  predicate ValidIdentifier(value: string) {
    !Blank(value) && |value| <= 512 && forall c :: c in value ==> !IsControl(c)
  }

  // A name of at most 512 characters, none of them a control, that is not all spaces.
  lemma IdentifierIsValid(value: string)
    ensures ValidIdentifier(value) <==>
              && |value| <= 512
              && (exists i :: 0 <= i < |value| && !IsSpace(value[i]))
              && forall i :: 0 <= i < |value| ==> value[i] as int >= 32 && value[i] as int != 127
  {
    hide IsSpace;
    assert forall i :: 0 <= i < |value| ==> value[i] in value;
  }

  datatype ScopeSelection = ScopeSelection(scopes: seq<ContextScope>, session: Option<string>, teamIds: set<string>)
  {
    // The checks made when a selection is constructed.
    function Rejected(): Option<ScopeError> {
      if scopes == [] then Some(NoScopes)
      else if exists i, j :: 0 <= i < j < |scopes| && scopes[i] == scopes[j] then Some(DuplicateScopes)
      else if Thread in scopes && session.None? then Some(NoSession)
      else if Thread in scopes && !ValidIdentifier(session.value) then Some(BadIdentifier)
      else if Team in scopes && teamIds == {} then Some(NoTeams)
      else if exists t :: t in teamIds && !ValidIdentifier(t) then Some(BadIdentifier)
      else None
    }

    predicate Valid() {
      Rejected().None?
    }

    predicate Allows(record: ContextRecord) {
      && record.scope in scopes
      && match record.scope
         case Thread => record.owner == session
         case Team => record.team.Some? && record.team.value in teamIds
         case Project => true
    }

    function CacheIdentity(): (seq<ContextScope>, Option<string>, set<string>) {
      (scopes, if Thread in scopes then session else None, teamIds)
    }
  }

  // ---- The SQL predicate: clauses with positional parameters, over columns that may be NULL ----

  datatype Truth = True | False | Unknown

  function ScopeValue(scope: ContextScope): string {
    match scope
    case Thread => "thread"
    case Project => "project"
    case Team => "team"
  }

  function Equals(column: Option<string>, value: string): Truth {
    match column
    case None => Unknown
    case Some(v) => if v == value then True else False
  }

  function In(column: Option<string>, values: seq<string>): Truth {
    if values == [] then False
    else match column
      case None => Unknown
      case Some(v) => if v in values then True else False
  }

  function And(a: Truth, b: Truth): Truth {
    if a == False || b == False then False else if a == Unknown || b == Unknown then Unknown else True
  }

  function Or(a: Truth, b: Truth): Truth {
    if a == True || b == True then True else if a == Unknown || b == Unknown then Unknown else False
  }

  // `(scope = ? AND owner_session_id = ?)`, `(scope = ? AND team_id IN (?, ..., ?))`, `scope = ?`
  datatype Clause = OwnedBy | TeamIn(placeholders: nat) | ScopeIs
  {
    function Holes(): nat {
      match this
      case OwnedBy => 2
      case TeamIn(n) => 1 + n
      case ScopeIs => 1
    }

    function Eval(record: ContextRecord, params: seq<string>): Truth
      requires |params| == Holes()
    {
      var sameScope := Equals(Some(ScopeValue(record.scope)), params[0]);
      match this
      case OwnedBy => And(sameScope, Equals(record.owner, params[1]))
      case TeamIn(_) => And(sameScope, In(record.team, params[1..]))
      case ScopeIs => sameScope
    }
  }

  function HolesOf(clauses: seq<Clause>): nat {
    if clauses == [] then 0 else clauses[0].Holes() + HolesOf(clauses[1..])
  }

  // Clauses joined by OR; placeholders are filled from left to right.
  function EvalAny(clauses: seq<Clause>, record: ContextRecord, params: seq<string>): Truth
    requires |params| == HolesOf(clauses)
  {
    if clauses == [] then False
    else
      var n := clauses[0].Holes();
      Or(clauses[0].Eval(record, params[..n]), EvalAny(clauses[1..], record, params[n..]))
  }

  lemma {:induction false} HolesConcat(a: seq<Clause>, b: seq<Clause>)
    ensures HolesOf(a + b) == HolesOf(a) + HolesOf(b)
  {
    if a == [] {
      assert a + b == b;
    } else {
      HolesConcat(a[1..], b);
      assert (a + b)[1..] == a[1..] + b;
    }
  }

  lemma OrUnit()
    ensures forall t: Truth :: Or(False, t) == t
  {
  }

  lemma OrAssociates(a: Truth, b: Truth, c: Truth)
    ensures Or(a, Or(b, c)) == Or(Or(a, b), c)
  {
  }

  lemma {:induction false} EvalConcat(a: seq<Clause>, b: seq<Clause>, record: ContextRecord, p: seq<string>,
                                      q: seq<string>)
    requires |p| == HolesOf(a) && |q| == HolesOf(b)
    ensures HolesOf(a + b) == |p + q|
    ensures EvalAny(a + b, record, p + q) == Or(EvalAny(a, record, p), EvalAny(b, record, q))
  {
    hide Clause.Eval, Clause.Holes, Or;
    HolesConcat(a, b);
    if a == [] {
      assert a + b == b && p + q == q;
      OrUnit();
    } else {
      var n := a[0].Holes();
      SplitHead(a, b);
      SplitFirst(p, q, n);
      EvalConcat(a[1..], b, record, p[n..], q);
      OrAssociates(a[0].Eval(record, p[..n]), EvalAny(a[1..], record, p[n..]), EvalAny(b, record, q));
    }
  }

  lemma SplitHead(a: seq<Clause>, b: seq<Clause>)
    requires a != []
    ensures (a + b)[0] == a[0] && (a + b)[1..] == a[1..] + b
  {
  }

  lemma SplitFirst(p: seq<string>, q: seq<string>, n: nat)
    requires n <= |p|
    ensures (p + q)[..n] == p[..n] && (p + q)[n..] == p[n..] + q
  {
  }

  // The clause that one scope of the selection contributes, and its parameters.
  ghost predicate Contributes(selection: ScopeSelection, teams: seq<string>, scope: ContextScope, clause: Clause,
                              params: seq<string>) {
    match scope
    case Thread => selection.session.Some? && clause == OwnedBy && params == ["thread", selection.session.value]
    case Team => clause == TeamIn(|teams|) && params == ["team"] + teams
    case Project => clause == ScopeIs && params == ["project"]
  }

  lemma ClauseMeansScope(selection: ScopeSelection, teams: seq<string>, scope: ContextScope, clause: Clause,
                         params: seq<string>, record: ContextRecord)
    requires Contributes(selection, teams, scope, clause, params) && selection.teamIds == set t | t in teams
    ensures |params| == clause.Holes() == HolesOf([clause])
    ensures EvalAny([clause], record, params) == True <==> selection.(scopes := [scope]).Allows(record)
  {
    assert params[..clause.Holes()] == params;
    assert scope == Team ==> params[1..] == teams;
  }

  lemma OneClause(selection: ScopeSelection, teams: seq<string>, scope: ContextScope, clause: Clause,
                  params: seq<string>)
    requires Contributes(selection, teams, scope, clause, params)
    ensures HolesOf([clause]) == |params|
  {
  }

  lemma AllowsSnoc(selection: ScopeSelection, i: nat, record: ContextRecord)
    requires i < |selection.scopes|
    ensures selection.(scopes := selection.scopes[..i + 1]).Allows(record) <==>
              || selection.(scopes := selection.scopes[..i]).Allows(record)
              || selection.(scopes := [selection.scopes[i]]).Allows(record)
  {
    assert selection.scopes[..i + 1] == selection.scopes[..i] + [selection.scopes[i]];
  }

  lemma NothingAllowed(selection: ScopeSelection)
    ensures HolesOf([]) == 0
    ensures forall record: ContextRecord :: EvalAny([], record, []) != True && !selection.(scopes := []).Allows(record)
  {
  }

  // Exactly the records that the in-memory test allows. `teams` lists the authorized teams.
  method ScopePredicate(selection: ScopeSelection, teams: seq<string>)
    returns (clauses: seq<Clause>, params: seq<string>)
    requires selection.Valid()
    requires Distinct(teams) && selection.teamIds == set t | t in teams
    ensures |params| == HolesOf(clauses)
    ensures forall record: ContextRecord :: EvalAny(clauses, record, params) == True <==> selection.Allows(record)
  {
    DistinctCardinality(teams);
    hide EvalAny, HolesOf, Clause.Holes, Clause.Eval, ScopeSelection.Allows;
    NothingAllowed(selection);
    clauses, params := [], [];
    for i := 0 to |selection.scopes|
      invariant |params| == HolesOf(clauses)
      invariant forall record: ContextRecord ::
                  EvalAny(clauses, record, params) == True <==>
                  selection.(scopes := selection.scopes[..i]).Allows(record)
    {
      ghost var before, bound := clauses, params;
      var clause, added;
      match selection.scopes[i] {
        case Thread => clause, added := OwnedBy, ["thread", selection.session.value];
        case Team => clause, added := TeamIn(|selection.teamIds|), ["team"] + teams;
        case Project => clause, added := ScopeIs, ["project"];
      }
      HolesConcat(before, [clause]);
      OneClause(selection, teams, selection.scopes[i], clause, added);
      clauses, params := clauses + [clause], params + added;
      forall record: ContextRecord
        ensures EvalAny(clauses, record, params) == True <==>
                selection.(scopes := selection.scopes[..i + 1]).Allows(record)
      {
        ClauseMeansScope(selection, teams, selection.scopes[i], clause, added, record);
        EvalConcat(before, [clause], record, bound, added);
        AllowsSnoc(selection, i, record);
      }
    }
    assert selection.scopes[..|selection.scopes|] == selection.scopes;
  }

  // Two selections that share a cached query accept the same records.
  lemma SameIdentitySameRecords(a: ScopeSelection, b: ScopeSelection, record: ContextRecord)
    requires a.CacheIdentity() == b.CacheIdentity()
    ensures a.Allows(record) <==> b.Allows(record)
  {
  }

  // ---- The boundary of a record ----

  // Absent or empty.
  predicate Missing(value: Option<string>) {
    value.None? || value.value == ""
  }

  function ValidateRecordScope(scope: ContextScope, owner: Option<string>, team: Option<string>)
    : (outcome: Result<(ContextScope, Option<string>, Option<string>), ScopeError>)
    ensures outcome.Ok? ==>
              outcome.value == (scope, if scope == Thread then owner else None, if scope == Team then team else None)
    ensures outcome.Ok? <==>
              match scope
              case Thread => owner.Some? && ValidIdentifier(owner.value) && Missing(team)
              case Team => team.Some? && ValidIdentifier(team.value) && Missing(owner)
              case Project => Missing(owner) && Missing(team)
  {
    var hasOwner, hasTeam := !Missing(owner), !Missing(team);
    match scope
    case Thread =>
      if !hasOwner then Err(BadOwner)
      else if !ValidIdentifier(owner.value) then Err(BadIdentifier)
      else if hasTeam then Err(BadOwner)
      else Ok((scope, owner, None))
    case Team =>
      if !hasTeam then Err(BadOwner)
      else if !ValidIdentifier(team.value) then Err(BadIdentifier)
      else if hasOwner then Err(BadOwner)
      else Ok((scope, None, team))
    case Project => if hasOwner || hasTeam then Err(BadOwner) else Ok((scope, None, None))
  }

  // A validated boundary is seen by exactly one kind of reader: the owning session, a member
  // of the team, or anyone who asks for project records.
  lemma BoundaryIsExact(scope: ContextScope, owner: Option<string>, team: Option<string>, record: ContextRecord,
                        selection: ScopeSelection)
    requires ValidateRecordScope(scope, owner, team) == Ok((record.scope, record.owner, record.team))
    requires selection.Valid()
    ensures selection.Allows(record) <==>
              && scope in selection.scopes
              && (scope == Thread ==> owner.Some? && selection.session == owner)
              && (scope == Team ==> team.Some? && team.value in selection.teamIds)
  {
  }
}
