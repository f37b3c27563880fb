/** What the store holds: records, the table rows that carry them, and the barriers revocations leave.

A row is a whole record (`payload`) plus the few columns queries select on. The columns are a
projection of the payload. `born` identifies a row from its insertion until it leaves the table: an
update in place keeps it, a delete followed by a new insert does not. */
module Records {
  import opened Options
  import opened Time
  import opened LockKeys
  import opened UserCodes

  // ----- records

  datatype DeviceState = Pending | Denied | Approved(subject: string)

  datatype CodeState =
    | Issued
    | Consumed(accessToken: Option<string>, refreshToken: Option<string>)
    | Replayed(accessToken: Option<string>, refreshToken: Option<string>)

  datatype RefreshState = Active | Spent

  /** One stored record. `detail` stands for the fields no query and no guard reads. */
  datatype Record =
    | Client(clientId: string, detail: string)
    | Consent(consentId: string, client: string, subjectId: string, grantedAt: Instant, detail: string)
    | AccessToken(token: string, client: string, subject: Option<string>, family: Option<string>,
                  established: Instant, expiresAt: Instant, detail: string)
    | RefreshToken(token: string, client: string, subject: Option<string>, familyId: string,
                   established: Instant, lifetime: Option<Instant>, state: RefreshState, detail: string)
    | Code(code: string, client: string, subjectId: string, expiresAt: Instant, codeState: CodeState,
           detail: string)
    | DeviceGrant(deviceCode: string, userCode: string, client: string, expiresAt: Instant,
                  deviceState: DeviceState, detail: string)
    | PushedRequest(uri: string, client: string, pushedAt: Instant, expiresAt: Instant, detail: string)
    | ReplayId(id: string, expiresAt: Instant)
    | Barrier(scope: Scope, until: Nanos, recorded: Nanos)

  /** What one barrier names. */
  datatype Scope =
    | ClientScope(client: string)
    | FamilyScope(family: string)
    | ConsentScope(client: string, subject: string)

  datatype Window = Window(recordedAt: Instant, until: Instant)

  datatype Table =
    | Clients | Consents | AccessTokens | RefreshTokens | Codes | DeviceGrants | PushedRequests
    | ReplayIds | Barriers

  /** The primary key of a row. */
  datatype RowId = Keyed(name: Table, key: string) | BarrierId(scope: Scope) {
    function Table(): Table {
      match this
      case Keyed(name, _) => name
      case BarrierId(_) => Barriers
    }
  }

  function IdOf(r: Record): (id: RowId) {
    match r
    case Client(id, _) => Keyed(Clients, id)
    case Consent(id, _, _, _, _) => Keyed(Consents, id)
    case AccessToken(token, _, _, _, _, _, _) => Keyed(AccessTokens, token)
    case RefreshToken(token, _, _, _, _, _, _, _) => Keyed(RefreshTokens, token)
    case Code(code, _, _, _, _, _) => Keyed(Codes, code)
    case DeviceGrant(code, _, _, _, _, _) => Keyed(DeviceGrants, code)
    case PushedRequest(uri, _, _, _, _) => Keyed(PushedRequests, uri)
    case ReplayId(id, _) => Keyed(ReplayIds, id)
    case Barrier(scope, _, _) => BarrierId(scope)
  }

  // ----- rows

  datatype Columns = Columns(client: string, subject: Option<string>, family: Option<string>,
                             expires: Option<Nanos>, granted: Nanos, userCode: Option<string>)

  function ApprovedSubject(s: DeviceState): (subject: Option<string>) {
    match s
    case Approved(subject) => Some(subject)
    case Pending | Denied => None
  }

  function Project(r: Record): (cols: Columns) {
    match r
    case Client(id, _) => Columns(id, None, None, None, 0, None)
    case Consent(_, c, s, at, _) => Columns(c, Some(s), None, None, ToNanos(at), None)
    case AccessToken(_, c, s, f, _, exp, _) => Columns(c, s, f, Some(ToNanos(exp)), 0, None)
    case RefreshToken(_, c, s, f, _, exp, _, _) =>
      Columns(c, s, Some(f), if exp.Some? then Some(ToNanos(exp.value)) else None, 0, None)
    case Code(_, c, s, exp, _, _) => Columns(c, Some(s), None, Some(ToNanos(exp)), 0, None)
    case DeviceGrant(_, code, c, exp, st, _) =>
      Columns(c, ApprovedSubject(st), None, Some(ToNanos(exp)), 0, Some(Normalize(code)))
    case PushedRequest(_, c, _, exp, _) => Columns(c, None, None, Some(ToNanos(exp)), 0, None)
    case ReplayId(_, exp) => Columns("", None, None, Some(ToNanos(exp)), 0, None)
    case Barrier(_, until, _) => Columns("", None, None, Some(until), 0, None)
  }

  datatype Row = Row(cols: Columns, payload: Record, born: nat)

  function RowOf(r: Record, born: nat): Row { Row(Project(r), r, born) }

  type Db = map<RowId, Row>

  /** Every row sits under its own key and its columns are the projection of its payload. */
  ghost predicate ColumnsAgree(db: Db) {
    forall id | id in db :: IdOf(db[id].payload) == id && db[id].cols == Project(db[id].payload)
  }

  // ----- what a guarded write is judged by

  datatype Guard = Guard(client: string, family: Option<string>, subject: Option<string>,
                         established: Instant)

  predicate IsGuarded(r: Record) { r.AccessToken? || r.RefreshToken? || r.PushedRequest? }

  function GuardOf(r: Record): (g: Guard)
    requires IsGuarded(r)
  {
    match r
    case AccessToken(_, c, s, f, at, _, _) => Guard(c, f, s, at)
    case RefreshToken(_, c, s, f, at, _, _, _) => Guard(c, Some(f), s, at)
    case PushedRequest(_, c, at, _, _) => Guard(c, None, None, at)
  }

  predicate InScope(scope: Scope, g: Guard) {
    match scope
    case ClientScope(c) => g.client == c
    case FamilyScope(f) => g.family == Some(f)
    case ConsentScope(c, s) => g.client == c && g.subject == Some(s)
  }

  /** The schema's check constraints: the empty string names no identity. */
  predicate NonEmpty(scope: Scope) {
    match scope
    case ClientScope(c) => c != ""
    case FamilyScope(f) => f != ""
    case ConsentScope(c, s) => c != "" && s != ""
  }

  function KeyOf(scope: Scope): (key: string) {
    match scope
    case ClientScope(c) => ScopeKey("client", c, "")
    case FamilyScope(f) => ScopeKey("family", f, "")
    case ConsentScope(c, s) => ScopeKey("consent", c, s)
  }

  // ----- the refusal predicate

  /** The barrier of a scope was recorded at or after the grant was established. */
  predicate RecordedSince(db: Db, scope: Scope, established: Instant) {
    var id := BarrierId(scope);
    id in db && db[id].payload.Barrier? && db[id].payload.recorded >= ToNanos(established)
  }

  /** One query, three scopes. A missing family or subject is bound as the empty string. */
  predicate Covers(db: Db, g: Guard) {
    || (BarrierId(ClientScope(g.client)) in db
        && (RecordedSince(db, ClientScope(g.client), g.established)
            || Keyed(Clients, g.client) !in db))
    || BarrierId(FamilyScope(g.family.GetOr(""))) in db
    || RecordedSince(db, ConsentScope(g.client, g.subject.GetOr("")), g.established)
  }

  ghost predicate BarriersNamed(db: Db) {
    forall scope | BarrierId(scope) in db :: NonEmpty(scope)
  }
}
