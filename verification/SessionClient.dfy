/** The code of `auth.ts` and `api.ts` over mutable fields, one method per synchronous segment. */
module SessionClient {
  import opened Options
  import opened SessionModel

  class Session {
    var now: int                       // the clock, Date.now()
    var tokens: Option<Tokens>         // localStorage, TOKEN_KEY
    var user: Option<User>             // localStorage, USER_KEY
    var refreshPromise: Option<nat>
    var refreshes: seq<Refresh>        // every refresh started so far
    var tasks: seq<Task>               // every asynchronous function entered so far

    function View(): State
      reads this
    {
      State(now, tokens, user, refreshPromise, refreshes, tasks)
    }

    constructor (now: int, tokens: Option<Tokens>, user: Option<User>)
      ensures Fresh(View())
      ensures this.now == now && this.tokens == tokens && this.user == user
    {
      this.now, this.tokens, this.user := now, tokens, user;
      refreshPromise, refreshes, tasks := None, [], [];
    }

    // ------------------------------------------------------------ auth.ts, the store

    method ClearAuth()
      modifies this`tokens, this`user
      ensures View() == Cleared(old(View()))
    {
      tokens := None;
      user := None;
    }

    method StoreAuth(newTokens: Tokens, newUser: User)
      modifies this`tokens, this`user
      ensures tokens == Some(newTokens) && user == Some(newUser)
    {
      tokens := Some(newTokens);
      user := Some(newUser);
    }

    method SetStoredUser(newUser: User)
      modifies this`user
      ensures View() == Step(old(View()), SetUser(newUser))
    {
      user := Some(newUser);
    }

    /** Returns the stored tokens, and empties the store on finding them expired. */
    method GetStoredTokens() returns (r: Option<Tokens>)
      modifies this`tokens, this`user
      ensures View() == AfterRead(old(View()))
      ensures r == tokens
      ensures r.Some? ==> r == old(tokens) && now <= r.value.expiresAt
      ensures r.None? ==> old(tokens).None? || (old(tokens).value.expiresAt < now && user.None?)
    {
      if tokens.None? {
        return None;
      }
      if tokens.value.expiresAt < now {
        ClearAuth();
        return None;
      }
      return tokens;
    }

    /** A token that expires at this very instant is still sent, but does not count as a session. */
    method IsAuthenticated() returns (b: bool)
      modifies this`tokens, this`user
      ensures View() == Step(old(View()), ReadSession)
      ensures b <==> old(tokens).Some? && now < old(tokens).value.expiresAt
      ensures !b && tokens.Some? <==> old(tokens).Some? && now == old(tokens).value.expiresAt
    {
      var t := GetStoredTokens();
      b := t.Some? && t.value.expiresAt > now;
    }

    method GetAuthHeader() returns (h: Sent)
      modifies this`tokens, this`user
      ensures View() == AfterRead(old(View()))
      ensures h == Header(old(View()))
    {
      var t := GetStoredTokens();
      h := Sent(t, now);
    }

    // ------------------------------------------------------------ auth.ts, refreshTokens

    method BeginRefreshTokens()
      requires refreshPromise.None?
      modifies this
      ensures View() == StartRefresh(old(View()))
    {
      var t := GetStoredTokens();
      var id := |refreshes|;
      if t.None? || t.value.refresh == "" {
        refreshes := refreshes + [Refresh(Sent(None, now), Settled(None))];
      } else {
        refreshes := refreshes + [Refresh(Sent(t, now), Fetching)];
      }
      refreshPromise := Some(id);
    }

    method RefreshResponse(r: nat, answer: Answer)
      requires Enabled(View(), RefreshRespond(r, answer))
      modifies this
      ensures View() == Step(old(View()), RefreshRespond(r, answer))
    {
      if answer.Rejected? || !Ok(answer.code) {
        ClearAuth();
        refreshes := refreshes[r := refreshes[r].(phase := Settled(None))];
      } else {
        refreshes := refreshes[r := refreshes[r].(phase := ReadingTokens)];
      }
    }

    method RefreshBody(r: nat, grant: Option<Grant>)
      requires Enabled(View(), RefreshRead(r, grant))
      modifies this
      ensures View() == Step(old(View()), RefreshRead(r, grant))
    {
      if grant.None? {
        ClearAuth();
        refreshes := refreshes[r := refreshes[r].(phase := Settled(None))];
        return;
      }
      var newTokens := FromGrant(grant.value, now);
      if user.Some? {
        StoreAuth(newTokens, user.value);
      }
      refreshes := refreshes[r := refreshes[r].(phase := Settled(Some(newTokens)))];
    }

    /** The callback given to `finally` in refreshTokensWithLock. */
    method Finally(r: nat)
      requires Enabled(View(), RunFinally(r))
      modifies this
      ensures View() == Step(old(View()), RunFinally(r))
    {
      refreshes := refreshes[r := refreshes[r].(phase := Released(refreshes[r].phase.result))];
      refreshPromise := None;
    }

    // ------------------------------------------------------------ api.ts, fetchWithAuth and uploadAvatar

    /** Returns the refresh whose promise the caller awaits. */
    method RefreshTokensWithLock() returns (r: nat)
      modifies this
      ensures View() == JoinRefresh(old(View()))
      ensures refreshPromise == Some(r)
    {
      if refreshPromise.None? {
        BeginRefreshTokens();
      }
      r := refreshPromise.value;
    }

    method BeginCall(kind: Kind)
      modifies this
      ensures View() == Step(old(View()), StartCall(kind))
    {
      var h := GetAuthHeader();
      tasks := tasks + [ApiTask(Call(kind, [h], [], [], None, FirstTry))];
    }

    method CallResponse(i: nat, answer: Answer)
      requires i < |tasks| && tasks[i].ApiTask?
      requires Enabled(View(), Respond(i, answer))
      modifies this
      ensures View() == Step(old(View()), Respond(i, answer))
    {
      var c := tasks[i].call.(answers := tasks[i].call.answers + [answer]);
      if answer.Rejected? {
        c := c.(phase := Finished(NetworkError));
      } else if answer.code == 401 && c.phase.FirstTry? {
        var r := RefreshTokensWithLock();
        c := c.(joins := c.joins + [r], phase := Waiting);
      } else {
        c := c.(phase := Reading(answer.code));
      }
      tasks := tasks[i := ApiTask(c)];
    }

    method ResumeCall(i: nat)
      requires Enabled(View(), Resume(i))
      modifies this
      ensures View() == Step(old(View()), Resume(i))
    {
      var c := tasks[i].call;
      var newTokens := refreshes[c.joins[|c.joins| - 1]].phase.result;
      if newTokens.Some? {
        c := c.(sent := c.sent + [Sent(newTokens, now)], phase := SecondTry);
      } else {
        ClearAuth();
        c := c.(phase := Finished(Unauthorized));
      }
      tasks := tasks[i := ApiTask(c)];
    }

    method CallBody(i: nat, body: Body)
      requires Enabled(View(), ReadBody(i, body))
      modifies this
      ensures View() == Step(old(View()), ReadBody(i, body))
    {
      var c := tasks[i].call;
      var outcome := Succeeded;
      if !Ok(c.phase.code) {
        outcome := HttpError(c.phase.code);
      } else if body.Aborted? || body.Malformed? || (c.kind.UploadAvatar? && body.EmptyText?) {
        outcome := BadBody;
      }
      tasks := tasks[i := ApiTask(c.(body := Some(body), phase := Finished(outcome)))];
    }

    // ------------------------------------------------------------ auth.ts, sign-in, logout, getMe

    method BeginSignIn(route: Route)
      modifies this
      ensures View() == Step(old(View()), StartSignIn(route))
    {
      tasks := tasks + [SignInTask(route, SigningIn)];
    }

    method SignInResponse(i: nat, answer: Answer)
      requires i < |tasks| && tasks[i].SignInTask?
      requires Enabled(View(), Respond(i, answer))
      modifies this
      ensures View() == Step(old(View()), Respond(i, answer))
    {
      var phase := if answer.Rejected? then SignInOver else ReadingGrant(Ok(answer.code));
      tasks := tasks[i := SignInTask(tasks[i].route, phase)];
    }

    method SignInBody(i: nat, signedIn: Option<(Grant, User)>)
      requires Enabled(View(), ReadGrant(i, signedIn))
      modifies this
      ensures View() == Step(old(View()), ReadGrant(i, signedIn))
    {
      if tasks[i].signIn.ok && signedIn.Some? {
        StoreAuth(SignInTokens(tasks[i].route, signedIn.value.0, now), signedIn.value.1);
      }
      tasks := tasks[i := SignInTask(tasks[i].route, SignInOver)];
    }

    method BeginLogout()
      modifies this
      ensures View() == Step(old(View()), StartLogout)
    {
      var t := GetStoredTokens();
      if t.Some? {
        var h := GetAuthHeader();
        tasks := tasks + [LogoutTask(h, false)];
      } else {
        ClearAuth();
        tasks := tasks + [LogoutTask(Sent(None, now), true)];
      }
    }

    method LogoutResponse(i: nat, answer: Answer)
      requires i < |tasks| && tasks[i].LogoutTask?
      requires Enabled(View(), Respond(i, answer))
      modifies this
      ensures View() == Step(old(View()), Respond(i, answer))
    {
      ClearAuth();
      tasks := tasks[i := LogoutTask(tasks[i].header, true)];
    }

    method BeginGetMe()
      modifies this
      ensures View() == Step(old(View()), StartGetMe)
    {
      var h := GetAuthHeader();
      tasks := tasks + [GetMeTask(h, Asking)];
    }

    method GetMeResponse(i: nat, answer: Answer)
      requires i < |tasks| && tasks[i].GetMeTask?
      requires Enabled(View(), Respond(i, answer))
      modifies this
      ensures View() == Step(old(View()), Respond(i, answer))
    {
      var phase := if answer.Status? && Ok(answer.code) then ReadingMe else GetMeOver;
      tasks := tasks[i := GetMeTask(tasks[i].header, phase)];
    }

    method GetMeBody(i: nat, me: Option<User>)
      requires Enabled(View(), ReadMe(i, me))
      modifies this
      ensures View() == Step(old(View()), ReadMe(i, me))
    {
      if me.Some? {
        var t := GetStoredTokens();
        if t.Some? {
          StoreAuth(t.value, me.value);
        }
      }
      tasks := tasks[i := GetMeTask(tasks[i].header, GetMeOver)];
    }
  }
}
