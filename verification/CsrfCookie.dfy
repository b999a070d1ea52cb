/**
 * The CSRF cookie over whole runs: one browser, any number of requests in flight,
 * and responses arriving in any order.
 */
module CsrfCookie {
  import opened Basics
  import opened CsrfTokens

  /** A safe request, a login with the right password, or any other unsafe request, the logout included. */
  datatype Kind = Safe | Login | Unsafe

  /** Under way to the server, or back from it with what the response writes and what its page carries. */
  datatype Phase = Sent | Answered(setCookie: Option<string>, page: Option<string>)

  /** carried: the secret in the Cookie header, when it holds a well-formed one. */
  datatype Request = Request(kind: Kind, carried: Option<string>, phase: Phase)

  datatype Browser = Browser(cookie: Option<string>, requests: map<nat, Request>, next: nat)

  datatype Step =
    | Send(kind: Kind)
    | Serve(request: nat, minted: string)
    | Arrive(request: nat)
    | Expire

  /** csrfToken, validateCsrf and the login route, for one request: a secret is minted for a safe request without one, and for a login. */
  function Answer(kind: Kind, carried: Option<string>, minted: string): Phase {
    match kind
    case Safe => if carried.Some? then Answered(None, carried) else Answered(Some(minted), Some(minted))
    case Login => if carried.Some? then Answered(Some(minted), Some(minted)) else Answered(None, None)
    case Unsafe => Answered(None, carried)
  }

  function Next(b: Browser, step: Step): Browser {
    match step
    case Send(kind) => b.(requests := b.requests[b.next := Request(kind, b.cookie, Sent)], next := b.next + 1)
    case Serve(r, minted) =>
      if r in b.requests && b.requests[r].phase.Sent? && IsSecret(minted)
      then b.(requests := b.requests[r := b.requests[r].(phase := Answer(b.requests[r].kind, b.requests[r].carried, minted))])
      else b
    case Arrive(r) =>
      if r in b.requests && b.requests[r].phase.Answered?
      then Browser(if b.requests[r].phase.setCookie.Some? then b.requests[r].phase.setCookie else b.cookie, b.requests - {r}, b.next)
      else b
    case Expire => b.(cookie := None)
  }

  function Exec(b: Browser, run: seq<Step>): Browser
    decreases |run|
  {
    if run == [] then b else Exec(Next(b, run[0]), run[1..])
  }

  /** The response of a login that went through, with the new secret it mints. */
  predicate LoginArrives(b: Browser, step: Step) {
    && step.Arrive? && step.request in b.requests && b.requests[step.request].kind.Login?
    && b.requests[step.request].phase.Answered? && b.requests[step.request].phase.setCookie.Some?
  }

  /** A stretch of a run in which no login completes and the cookie's month does not end. */
  predicate Undisturbed(b: Browser, run: seq<Step>)
    decreases |run|
  {
    run == [] || (!run[0].Expire? && !LoginArrives(b, run[0]) && Undisturbed(Next(b, run[0]), run[1..]))
  }

  /** What is in flight was answered as the middleware answers. */
  predicate Plausible(b: Browser) {
    && (b.cookie.Some? ==> IsSecret(b.cookie.value))
    && forall r :: r in b.requests ==> r < b.next && IsAnswer(b.requests[r])
  }

  predicate IsAnswer(r: Request) {
    && (r.phase.Answered? ==> r.phase.setCookie.Some? ==> IsSecret(r.phase.setCookie.value))
    && (r.phase.Answered? ==> (r.kind.Safe? && r.carried.None?) || r.kind.Login? || r.phase.setCookie.None?)
    && (r.phase.Answered? && !r.kind.Login? && r.carried.Some? ==> r.phase.page == r.carried)
  }

  /** A safe request sent without a cookie, whose answer can still write a secret other than this one. */
  predicate CanOverwrite(r: Request, secret: string) {
    r.kind.Safe? && r.carried.None? && (r.phase.Sent? || (r.phase.setCookie.Some? && r.phase.setCookie.value != secret))
  }

  predicate OverwritePending(b: Browser, secret: string) {
    exists r :: r in b.requests && CanOverwrite(b.requests[r], secret)
  }

  /**
   * Who writes the cookie: a safe request that carried none is answered with a new secret, and so is a login that carried
   * one; the page in the answer masks that secret. Any other answer writes none, and its page masks the secret carried.
   */
  lemma WhoWritesTheCookie(b: Browser, r: nat, minted: string)
    requires r in b.requests && b.requests[r].phase.Sent? && IsSecret(minted)
    ensures
      var q, served := b.requests[r], Next(b, Serve(r, minted));
      var writes := if q.kind == Login then q.carried.Some? else q.kind == Safe && q.carried.None?;
      && r in served.requests && served.requests[r].phase.Answered? && served.cookie == b.cookie
      && Next(served, Arrive(r)).cookie == (if writes then Some(minted) else b.cookie)
      && served.requests[r].phase.page == if writes then Some(minted) else q.carried
  {
  }

  lemma StepIsPlausible(b: Browser, step: Step)
    requires Plausible(b)
    ensures Plausible(Next(b, step))
  {
  }

  lemma {:induction false} PlausibleAlways(b: Browser, run: seq<Step>)
    requires Plausible(b)
    ensures Plausible(Exec(b, run))
    decreases |run|
  {
    if run != [] {
      StepIsPlausible(b, run[0]);
      PlausibleAlways(Next(b, run[0]), run[1..]);
    }
  }

  lemma StepKeepsTheCookie(b: Browser, step: Step, secret: string)
    requires Plausible(b) && b.cookie == Some(secret) && !OverwritePending(b, secret)
    requires !step.Expire? && !LoginArrives(b, step)
    ensures Next(b, step).cookie == Some(secret) && !OverwritePending(Next(b, step), secret)
  {
  }

  lemma {:induction false} CookieIsKept(b: Browser, run: seq<Step>, secret: string)
    requires Plausible(b) && b.cookie == Some(secret) && !OverwritePending(b, secret) && Undisturbed(b, run)
    ensures Exec(b, run).cookie == Some(secret)
    decreases |run|
  {
    if run != [] {
      StepIsPlausible(b, run[0]);
      StepKeepsTheCookie(b, run[0], secret);
      CookieIsKept(Next(b, run[0]), run[1..], secret);
    }
  }

  function Zeros(): string { seq(2 * SECRET_BYTES, _ => '0') }
  function Ones(): string { seq(2 * SECRET_BYTES, _ => '1') }

  lemma OverwriteHappens(b: Browser, r: nat, secret: string)
    requires r in b.requests && CanOverwrite(b.requests[r], secret)
    ensures exists run :: Undisturbed(b, run) && Exec(b, run).cookie != Some(secret)
  {
    assert Zeros()[0] != Ones()[0];
    var other := if secret == Zeros() then Ones() else Zeros();
    var answered := Next(b, Serve(r, other));
    var arrived := Next(answered, Arrive(r));
    assert arrived.cookie != Some(secret);
    var run := [Serve(r, other), Arrive(r)];
    assert run[1..] == [Arrive(r)] && run[1..][1..] == [];
    assert Exec(answered, run[1..]) == arrived;
    assert Exec(b, run) == arrived;
    assert Undisturbed(answered, run[1..]);
    assert Undisturbed(b, run);
  }

  /**
   * Once a browser holds a secret, a login's included, no answer to anything it asked or
   * will ask changes it until the next login or the month's end, in any order of
   * arrival: exactly unless a safe request it sent before it had any cookie is still out.
   */
  lemma CookieIsSafeIffNothingOldIsOut(b: Browser, secret: string)
    requires Plausible(b) && b.cookie == Some(secret)
    ensures (forall run :: Undisturbed(b, run) ==> Exec(b, run).cookie == Some(secret)) <==> !OverwritePending(b, secret)
  {
    if OverwritePending(b, secret) {
      var r :| r in b.requests && CanOverwrite(b.requests[r], secret);
      OverwriteHappens(b, r, secret);
    } else {
      forall run | Undisturbed(b, run) ensures Exec(b, run).cookie == Some(secret) {
        CookieIsKept(b, run, secret);
      }
    }
  }

  // ---- Submitting ----

  /** site is the origin the app is served under. */
  datatype Submission = Submission(
    site: string,
    production: bool,
    verb: string,
    path: string,
    origin: Option<string>,
    field: Option<string>,
    header: Option<string>
  )

  predicate IsSafeVerb(verb: string) { verb == "GET" || verb == "HEAD" || verb == "OPTIONS" }

  predicate HasForeignOrigin(s: Submission) { s.production && s.origin.Some? && s.origin.value != s.site }

  predicate IsOwnLogout(s: Submission) {
    s.production && s.verb == "POST" && s.path == "/logout" && s.origin == Some(s.site)
  }

  /** The form field, unless it is empty; then the header. */
  function Submitted(s: Submission): Option<string> {
    if s.field.Some? && s.field.value != "" then s.field else s.header
  }

  /** validateCsrf, for a request carrying this cookie. */
  predicate Validates(s: Submission, cookie: Option<string>) {
    || IsSafeVerb(s.verb)
    || (&& !HasForeignOrigin(s)
        && Submitted(s).Some?
        && UnmaskToken(Submitted(s).value).Some?
        && cookie == UnmaskToken(Submitted(s).value))
    || IsOwnLogout(s)
  }

  /**
   * For every request and every cookie: it is let through if its verb is safe; or nothing
   * says it comes from elsewhere and it carries some masking of the cookie's own secret, in
   * the field or else in the header; or it is the logout posted by a page of the live site.
   */
  lemma ValidatesIff(s: Submission, cookie: Option<string>)
    ensures Validates(s, cookie) <==>
      || s.verb in {"GET", "HEAD", "OPTIONS"}
      || (&& (s.origin.None? || s.origin == Some(s.site) || !s.production)
          && exists secret, pad :: IsSecret(secret) && |pad| == SECRET_BYTES && cookie == Some(secret)
               && Some(MaskToken(secret, pad)) == if s.field.Some? && s.field.value != "" then s.field else s.header)
      || (s.production && s.verb == "POST" && s.path == "/logout" && s.origin == Some(s.site))
  {
    hide MaskToken, UnmaskToken, IsSecret;
    var token := if s.field.Some? && s.field.value != "" then s.field else s.header;
    if token.Some? && UnmaskToken(token.value).Some? {
      EveryTokenIsAMasking(token.value, UnmaskToken(token.value).value);
    }
    forall secret, pad | IsSecret(secret) && |pad| == SECRET_BYTES ensures UnmaskToken(MaskToken(secret, pad)) == Some(secret) {
      UnmaskingUndoesMasking(secret, pad);
    }
  }

  /** A form goes through exactly when the secret its page was rendered with is the one the browser holds. */
  lemma FormsGoThroughIff(s: Submission, page: string, pad: Bytes, cookie: Option<string>)
    requires IsSecret(page) && |pad| == SECRET_BYTES && Submitted(s) == Some(MaskToken(page, pad))
    requires !IsSafeVerb(s.verb) && !IsOwnLogout(s)
    ensures Validates(s, cookie) <==> !HasForeignOrigin(s) && cookie == Some(page)
  {
    UnmaskingUndoesMasking(page, pad);
  }

  /**
   * So the form on a page answered for a request that carried the secret, whatever pad
   * it was masked with, works until the next login or the month's end.
   */
  lemma FormsWorkUntilTheNextLogin(b: Browser, run: seq<Step>, r: nat, secret: string, pad: Bytes, s: Submission)
    requires Plausible(b) && b.cookie == Some(secret) && !OverwritePending(b, secret) && Undisturbed(b, run)
    requires r in b.requests && b.requests[r].phase.Answered? && !b.requests[r].kind.Login? && b.requests[r].carried == Some(secret)
    requires |pad| == SECRET_BYTES && !HasForeignOrigin(s)
    ensures b.requests[r].phase.page == Some(secret)
    ensures Submitted(s) == Some(MaskToken(secret, pad)) ==> Validates(s, Exec(b, run).cookie)
  {
    assert IsAnswer(b.requests[r]);
    CookieIsKept(b, run, secret);
    UnmaskingUndoesMasking(secret, pad);
    hide MaskToken, UnmaskToken, Exec;
  }
}
