/**
 The authenticated session of the dashboard as a step system.

 Every asynchronous function of `auth.ts` and `api.ts` is cut at its awaits. What runs
 between two awaits is one atomic step, and an `Event` says which step runs next and
 what the network answered. `Step` is the specification of each segment; the class
 `SessionClient.Session` holds the same segments as code over mutable fields.
 */
module SessionModel {
  import opened Options

  type Account = nat

  /** Stored tokens. `owner` is the account for which the server issued them; the client never reads it. */
  datatype Tokens = Tokens(access: string, refresh: string, expiresAt: int, owner: Account)

  datatype User = User(account: Account, profile: string)

  /** What a token endpoint hands out. `expires` is a lifetime in seconds, except on the
      OAuth route, where it already is an absolute time in milliseconds. */
  datatype Grant = Grant(access: string, refresh: string, expires: int, owner: Account)

  /** How a `fetch` settles, and how reading a response body settles. */
  datatype Answer = Status(code: int) | Rejected
  datatype Body = Aborted | EmptyText | JsonText | Malformed

  /** A request together with the clock and the stored tokens its header was built from. */
  datatype Sent = Sent(auth: Option<Tokens>, at: int)

  datatype Outcome = Succeeded | HttpError(code: int) | Unauthorized | NetworkError | BadBody

  datatype Kind = FetchWithAuth | UploadAvatar
  datatype CallPhase = FirstTry | Waiting | SecondTry | Reading(code: int) | Finished(outcome: Outcome)

  /** An API call with everything it has sent, seen and joined so far. */
  datatype Call = Call(kind: Kind, sent: seq<Sent>, answers: seq<Answer>, joins: seq<nat>,
                       body: Option<Body>, phase: CallPhase)

  datatype Route = Password | Register | OAuth
  datatype SignInPhase = SigningIn | ReadingGrant(ok: bool) | SignInOver
  datatype GetMePhase = Asking | ReadingMe | GetMeOver

  datatype Task =
    | ApiTask(call: Call)
    | SignInTask(route: Route, signIn: SignInPhase)
    | LogoutTask(header: Sent, done: bool)
    | GetMeTask(header: Sent, getMe: GetMePhase)

  /** `Settled`: refreshTokens has returned. `Released`: its finally callback has run too. */
  datatype RefreshPhase =
    | Fetching | ReadingTokens
    | Settled(result: Option<Tokens>) | Released(result: Option<Tokens>)
  datatype Refresh = Refresh(request: Sent, phase: RefreshPhase)

  /** `lock` is `refreshPromise`, as an index into the refreshes started so far. */
  datatype State = State(now: int, tokens: Option<Tokens>, user: Option<User>,
                         lock: Option<nat>, refreshes: seq<Refresh>, tasks: seq<Task>)

  datatype Event =
    | Tick(ms: nat)
    | ReadSession
    | SetUser(u: User)
    | StartCall(kind: Kind)
    | StartSignIn(route: Route)
    | StartLogout
    | StartGetMe
    | Respond(i: nat, answer: Answer)
    | Resume(i: nat)
    | ReadBody(i: nat, body: Body)
    | ReadGrant(i: nat, signedIn: Option<(Grant, User)>)
    | ReadMe(i: nat, me: Option<User>)
    | RefreshRespond(r: nat, answer: Answer)
    | RefreshRead(r: nat, grant: Option<Grant>)
    | RunFinally(r: nat)

  predicate Ok(code: int) { 200 <= code < 300 }

  // ---------------------------------------------------------------- the store

  predicate Expired(t: Tokens, now: int) { t.expiresAt < now }

  function Cleared(s: State): State { s.(tokens := None, user := None) }

  /** getStoredTokens: the state it leaves; the tokens it returns are those of that state. */
  function AfterRead(s: State): State {
    if s.tokens.Some? && Expired(s.tokens.value, s.now) then Cleared(s) else s
  }

  function Header(s: State): Sent { Sent(AfterRead(s).tokens, s.now) }

  function FromGrant(g: Grant, now: int): Tokens {
    Tokens(g.access, g.refresh, now + g.expires * 1000, g.owner)
  }

  function SignInTokens(route: Route, g: Grant, now: int): Tokens {
    if route == OAuth then Tokens(g.access, g.refresh, g.expires, g.owner) else FromGrant(g, now)
  }

  // ---------------------------------------------------------------- the shared refresh

  /** The first segment of refreshTokens, started because nothing holds the lock. */
  function StartRefresh(s: State): State {
    var s1 := AfterRead(s);
    var r := if s1.tokens.None? || s1.tokens.value.refresh == ""
             then Refresh(Sent(None, s.now), Settled(None))
             else Refresh(Sent(s1.tokens, s.now), Fetching);
    s1.(refreshes := s1.refreshes + [r], lock := Some(|s.refreshes|))
  }

  /** refreshTokensWithLock, up to the promise it awaits. */
  function JoinRefresh(s: State): State {
    if s.lock.Some? then s else StartRefresh(s)
  }

  function SetRefresh(s: State, r: nat, phase: RefreshPhase): State
    requires r < |s.refreshes|
  {
    s.(refreshes := s.refreshes[r := s.refreshes[r].(phase := phase)])
  }

  function OnRefreshResponse(s: State, r: nat, answer: Answer): State
    requires r < |s.refreshes|
  {
    if answer.Status? && Ok(answer.code) then SetRefresh(s, r, ReadingTokens)
    else SetRefresh(Cleared(s), r, Settled(None))
  }

  function OnRefreshRead(s: State, r: nat, grant: Option<Grant>): State
    requires r < |s.refreshes|
  {
    if grant.None? then SetRefresh(Cleared(s), r, Settled(None))
    else
      var t := FromGrant(grant.value, s.now);
      var s1 := if s.user.Some? then s.(tokens := Some(t)) else s;
      SetRefresh(s1, r, Settled(Some(t)))
  }

  function OnFinally(s: State, r: nat): State
    requires r < |s.refreshes| && s.refreshes[r].phase.Settled?
  {
    SetRefresh(s, r, Released(s.refreshes[r].phase.result)).(lock := None)
  }

  // ---------------------------------------------------------------- API calls

  function SetTask(s: State, i: nat, t: Task): State
    requires i < |s.tasks|
  {
    s.(tasks := s.tasks[i := t])
  }

  function AddTask(s: State, t: Task): State { s.(tasks := s.tasks + [t]) }

  /** What fetchWithAuth or uploadAvatar does with the body of its last response. */
  function CallEnd(kind: Kind, code: int, body: Body): Outcome {
    if !Ok(code) then HttpError(code)
    else match body
      case JsonText => Succeeded
      case EmptyText => if kind == FetchWithAuth then Succeeded else BadBody
      case Aborted => BadBody
      case Malformed => BadBody
  }

  function OnCallResponse(s: State, i: nat, answer: Answer): State
    requires i < |s.tasks| && s.tasks[i].ApiTask?
    requires s.tasks[i].call.phase.FirstTry? || s.tasks[i].call.phase.SecondTry?
  {
    var c := s.tasks[i].call.(answers := s.tasks[i].call.answers + [answer]);
    match answer
    case Rejected => SetTask(s, i, ApiTask(c.(phase := Finished(NetworkError))))
    case Status(code) =>
      if code == 401 && c.phase.FirstTry? then
        var s1 := JoinRefresh(s);
        SetTask(s1, i, ApiTask(c.(joins := c.joins + [if s.lock.Some? then s.lock.value else |s.refreshes|],
                                  phase := Waiting)))
      else
        SetTask(s, i, ApiTask(c.(phase := Reading(code))))
  }

  predicate CanResume(s: State, i: nat) {
    && i < |s.tasks| && s.tasks[i].ApiTask?
    && s.tasks[i].call.phase.Waiting?
    && s.tasks[i].call.joins != []
    && var r := s.tasks[i].call.joins[|s.tasks[i].call.joins| - 1];
    && r < |s.refreshes| && s.refreshes[r].phase.Released?
  }

  function ResumedWith(s: State, i: nat): Option<Tokens>
    requires CanResume(s, i)
  {
    s.refreshes[s.tasks[i].call.joins[|s.tasks[i].call.joins| - 1]].phase.result
  }

  /** The segment after `await refreshTokensWithLock()`. */
  function OnResume(s: State, i: nat): State
    requires CanResume(s, i)
  {
    var c := s.tasks[i].call;
    match ResumedWith(s, i)
    case Some(t) => SetTask(s, i, ApiTask(c.(sent := c.sent + [Sent(Some(t), s.now)], phase := SecondTry)))
    case None => SetTask(Cleared(s), i, ApiTask(c.(phase := Finished(Unauthorized))))
  }

  function OnBody(s: State, i: nat, body: Body): State
    requires i < |s.tasks| && s.tasks[i].ApiTask? && s.tasks[i].call.phase.Reading?
  {
    var c := s.tasks[i].call;
    SetTask(s, i, ApiTask(c.(body := Some(body), phase := Finished(CallEnd(c.kind, c.phase.code, body)))))
  }

  // ---------------------------------------------------------------- sign-in, logout, getMe

  function OnStart(s: State, e: Event): State
    requires e.StartCall? || e.StartSignIn? || e.StartLogout? || e.StartGetMe?
  {
    var h := Header(s);
    match e
    case StartCall(kind) => AddTask(AfterRead(s), ApiTask(Call(kind, [h], [], [], None, FirstTry)))
    case StartSignIn(route) => AddTask(s, SignInTask(route, SigningIn))
    case StartLogout =>
      if h.auth.Some? then AddTask(s, LogoutTask(h, false)) else AddTask(Cleared(s), LogoutTask(h, true))
    case StartGetMe => AddTask(AfterRead(s), GetMeTask(h, Asking))
  }

  predicate AwaitsResponse(t: Task) {
    match t
    case ApiTask(c) => c.phase.FirstTry? || c.phase.SecondTry?
    case SignInTask(_, p) => p.SigningIn?
    case LogoutTask(_, done) => !done
    case GetMeTask(_, p) => p.Asking?
  }

  function OnResponse(s: State, i: nat, answer: Answer): State
    requires i < |s.tasks| && AwaitsResponse(s.tasks[i])
  {
    match s.tasks[i]
    case ApiTask(_) => OnCallResponse(s, i, answer)
    case SignInTask(route, _) =>
      SetTask(s, i, SignInTask(route, if answer.Rejected? then SignInOver else ReadingGrant(Ok(answer.code))))
    case LogoutTask(h, _) => SetTask(Cleared(s), i, LogoutTask(h, true))
    case GetMeTask(h, _) =>
      SetTask(s, i, GetMeTask(h, if answer.Status? && Ok(answer.code) then ReadingMe else GetMeOver))
  }

  /** The last segment of login, register and handleOAuthCallback. */
  function OnGrant(s: State, i: nat, signedIn: Option<(Grant, User)>): State
    requires i < |s.tasks| && s.tasks[i].SignInTask? && s.tasks[i].signIn.ReadingGrant?
  {
    var s1 := if s.tasks[i].signIn.ok && signedIn.Some?
              then s.(tokens := Some(SignInTokens(s.tasks[i].route, signedIn.value.0, s.now)),
                      user := Some(signedIn.value.1))
              else s;
    SetTask(s1, i, SignInTask(s.tasks[i].route, SignInOver))
  }

  /** The last segment of getMe. */
  function OnMe(s: State, i: nat, me: Option<User>): State
    requires i < |s.tasks| && s.tasks[i].GetMeTask? && s.tasks[i].getMe.ReadingMe?
  {
    var t := GetMeTask(s.tasks[i].header, GetMeOver);
    if me.None? then SetTask(s, i, t)
    else
      var s1 := AfterRead(s);
      SetTask(if s1.tokens.Some? then s1.(user := me) else s1, i, t)
  }

  // ---------------------------------------------------------------- steps and runs

  /** Which events the environment can deliver in a state. */
  predicate Enabled(s: State, e: Event) {
    match e
    case Respond(i, _) => i < |s.tasks| && AwaitsResponse(s.tasks[i])
    case Resume(i) => CanResume(s, i)
    case ReadBody(i, _) => i < |s.tasks| && s.tasks[i].ApiTask? && s.tasks[i].call.phase.Reading?
    case ReadGrant(i, _) => i < |s.tasks| && s.tasks[i].SignInTask? && s.tasks[i].signIn.ReadingGrant?
    case ReadMe(i, _) => i < |s.tasks| && s.tasks[i].GetMeTask? && s.tasks[i].getMe.ReadingMe?
    case RefreshRespond(r, _) => r < |s.refreshes| && s.refreshes[r].phase.Fetching?
    case RefreshRead(r, _) => r < |s.refreshes| && s.refreshes[r].phase.ReadingTokens?
    case RunFinally(r) => r < |s.refreshes| && s.refreshes[r].phase.Settled?
    case _ => true
  }

  /** One step. An event that the environment cannot deliver leaves the state alone. */
  function Step(s: State, e: Event): State {
    if !Enabled(s, e) then s
    else match e
      case Tick(ms) => s.(now := s.now + ms)
      case ReadSession => AfterRead(s)
      case SetUser(u) => s.(user := Some(u))
      case Respond(i, answer) => OnResponse(s, i, answer)
      case Resume(i) => OnResume(s, i)
      case ReadBody(i, body) => OnBody(s, i, body)
      case ReadGrant(i, signedIn) => OnGrant(s, i, signedIn)
      case ReadMe(i, me) => OnMe(s, i, me)
      case RefreshRespond(r, answer) => OnRefreshResponse(s, r, answer)
      case RefreshRead(r, grant) => OnRefreshRead(s, r, grant)
      case RunFinally(r) => OnFinally(s, r)
      case _ => OnStart(s, e)
  }

  /** A freshly loaded page: the store holds what an earlier page left, nothing is in flight. */
  predicate Fresh(s: State) {
    s.lock == None && s.refreshes == [] && s.tasks == []
  }
}
