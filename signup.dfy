/** The signup route (`POST /api/auth/signup`): a per-IP fixed-window rate limiter kept in a
    process-wide map, then the checks on the submitted email, password and name.

    The clock (`Date.now()`) and the user lookup are not functions: the time of each call and
    whether a user with the email already exists are inputs. */
module Signup {
  import opened Basics
  import opened Seqs
  import opened Text

  /** Fifteen minutes, in milliseconds. */
  const Window: int := 15 * 60 * 1000
  const MaxAttempts: int := 5

  /** The value stored per IP: attempts counted in the current window, and when it ends. */
  datatype Attempt = Attempt(count: int, resetTime: int)

  datatype Step = Step(attempts: map<string, Attempt>, limited: bool)

  /** One call of `isRateLimited(ip)` at time `now` on the map `m`: the new map and the answer. */
  function LimitStep(m: map<string, Attempt>, ip: string, now: int): (s: Step)
    ensures ip in s.attempts
    ensures forall other :: other != ip ==>
              (other in s.attempts <==> other in m) && (other in m ==> s.attempts[other] == m[other])
    ensures ip !in m || now > m[ip].resetTime ==>
              !s.limited && s.attempts[ip] == Attempt(1, now + Window)
    ensures ip in m && now <= m[ip].resetTime && m[ip].count >= MaxAttempts ==>
              s.limited && s.attempts == m
    ensures ip in m && now <= m[ip].resetTime && m[ip].count < MaxAttempts ==>
              !s.limited && s.attempts[ip] == Attempt(m[ip].count + 1, m[ip].resetTime)
  {
    if ip !in m || now > m[ip].resetTime then Step(m[ip := Attempt(1, now + Window)], false)
    else if m[ip].count >= MaxAttempts then Step(m, true)
    else Step(m[ip := m[ip].(count := m[ip].count + 1)], false)
  }

  /** Every stored count lies between 1 and `MaxAttempts`. */
  ghost predicate CountsInRange(m: map<string, Attempt>) {
    forall ip :: ip in m ==> 1 <= m[ip].count <= MaxAttempts
  }

  lemma LimitStepKeepsCounts(m: map<string, Attempt>, ip: string, now: int)
    requires CountsInRange(m)
    ensures CountsInRange(LimitStep(m, ip, now).attempts)
  {
  }

  /** The answers of successive calls for one IP at the given times. */
  function Run(m: map<string, Attempt>, ip: string, times: seq<int>): (answers: seq<bool>)
    ensures |answers| == |times|
    decreases |times|
  {
    if times == [] then []
    else
      var s := LimitStep(m, ip, times[0]);
      [s.limited] + Run(s.attempts, ip, times[1..])
  }

  /** Number of calls that were let through. */
  function Admitted(answers: seq<bool>): (n: nat)
    ensures n <= |answers|
  {
    if answers == [] then 0 else (if answers[0] then 0 else 1) + Admitted(answers[1..])
  }

  /** Within an open window the IP is let through until its count reaches `MaxAttempts`, and
      refused from then on. */
  lemma {:induction false} WindowAdmits(m: map<string, Attempt>, ip: string, times: seq<int>)
    requires ip in m && 1 <= m[ip].count <= MaxAttempts
    requires forall k :: 0 <= k < |times| ==> times[k] <= m[ip].resetTime
    ensures Admitted(Run(m, ip, times)) == Min(|times|, MaxAttempts - m[ip].count)
    decreases |times|
  {
    if times != [] {
      var s := LimitStep(m, ip, times[0]);
      assert s.attempts[ip].resetTime == m[ip].resetTime;
      WindowAdmits(s.attempts, ip, times[1..]);
    }
  }

  /** A call that opens a window is followed by at most four more admitted calls until the
      window closes: at most five signups per IP per fifteen minutes. */
  lemma FreshWindowAdmitsFive(m: map<string, Attempt>, ip: string, t0: int, times: seq<int>)
    requires ip !in m || t0 > m[ip].resetTime
    requires forall k :: 0 <= k < |times| ==> times[k] <= t0 + Window
    ensures Admitted(Run(m, ip, [t0] + times)) == Min(1 + |times|, MaxAttempts)
  {
    var s := LimitStep(m, ip, t0);
    assert ([t0] + times)[1..] == times;
    WindowAdmits(s.attempts, ip, times);
  }

  /** The process-wide `signupAttempts` map and the function that updates it. */
  class RateLimiter {
    var attempts: map<string, Attempt>

    constructor()
      ensures attempts == map[]
      ensures Valid()
    {
      attempts := map[];
    }

    ghost predicate Valid()
      reads this
    {
      CountsInRange(attempts)
    }

    /** `isRateLimited(ip)` called at time `now`. */
    method IsRateLimited(ip: string, now: int) returns (limited: bool)
      requires Valid()
      modifies this
      ensures Valid()
      ensures attempts == LimitStep(old(attempts), ip, now).attempts
      ensures limited == LimitStep(old(attempts), ip, now).limited
    {
      if ip !in attempts || now > attempts[ip].resetTime {
        attempts := attempts[ip := Attempt(1, now + Window)];
        return false;
      }
      var entry := attempts[ip];
      if entry.count >= MaxAttempts {
        return true;
      }
      attempts := attempts[ip := entry.(count := entry.count + 1)];
      return false;
    }
  }

  /** `request.ip || request.headers.get('x-forwarded-for') || 'unknown'`. */
  function ClientIp(requestIp: Option<string>, forwardedFor: Option<string>): (ip: string)
    ensures ip != []
    ensures requestIp.Some? && requestIp.value != [] ==> ip == requestIp.value
    ensures (requestIp.None? || requestIp.value == []) && forwardedFor.Some? && forwardedFor.value != [] ==>
              ip == forwardedFor.value
    ensures (requestIp.None? || requestIp.value == []) && (forwardedFor.None? || forwardedFor.value == []) ==>
              ip == "unknown"
  {
    if requestIp.Some? && requestIp.value != [] then requestIp.value
    else if forwardedFor.Some? && forwardedFor.value != [] then forwardedFor.value
    else "unknown"
  }

  /** The JSON body: a field that is absent or not a string is `None`. */
  datatype SignupBody = SignupBody(email: Option<string>, password: Option<string>, name: Option<string>)

  datatype Rejection = MissingField | InvalidEmail | ShortPassword | WeakPassword

  datatype Response = TooManyAttempts | BadRequest(reason: Rejection) | Conflict | Created

  function StatusCode(r: Response): int {
    match r
    case TooManyAttempts => 429
    case BadRequest(_) => 400
    case Conflict => 409
    case Created => 200
  }

  /** `!field` is false exactly for a non-empty string. */
  predicate Present(field: Option<string>) {
    field.Some? && field.value != []
  }

  /** `/^[^\s@]+@[^\s@]+\.[^\s@]+$/.test(email)`: an `@` at `a` and a `.` at `d`, each with at
      least one character before and after, and no other character that is `@` or whitespace. */
  predicate EmailRegex(e: string) {
    exists a, d :: 0 < a && a + 1 < d < |e| - 1 && e[a] == '@' && e[d] == '.' && NoSpaceOrAtBut(e, a)
  }

  predicate NoSpaceOrAtBut(e: string, a: int) {
    forall k :: 0 <= k < |e| && k != a ==> !IsJsSpace(e[k]) && e[k] != '@'
  }

  /** The shape the regex accepts, in words: exactly one `@`, no whitespace, some text before
      the `@`, and a `.` after it with text on both sides. */
  predicate EmailShape(e: string) {
    && multiset(e)['@'] == 1
    && (forall k :: 0 <= k < |e| ==> !IsJsSpace(e[k]))
    && var a := IndexOf(e, '@');
    && a > 0
    && exists d :: a + 1 < d < |e| - 1 && e[d] == '.'
  }

  lemma EmailRegexIsShape(e: string)
    ensures EmailRegex(e) <==> EmailShape(e)
  {
    if EmailRegex(e) {
      var a, d :| 0 < a && a + 1 < d < |e| - 1 && e[a] == '@' && e[d] == '.' && NoSpaceOrAtBut(e, a);
      OnlyAt(e, a);
      assert IndexOf(e, '@') == a;
    }
    if EmailShape(e) {
      var a := IndexOf(e, '@');
      var d :| a + 1 < d < |e| - 1 && e[d] == '.';
      OnlyAt(e, a);
      assert NoSpaceOrAtBut(e, a);
    }
  }

  /** With an `@` at `a`, it is the only one exactly when every other character differs. */
  lemma OnlyAt(e: string, a: int)
    requires 0 <= a < |e| && e[a] == '@'
    ensures multiset(e)['@'] == 1 <==> forall k :: 0 <= k < |e| && k != a ==> e[k] != '@'
  {
    assert e == e[..a] + [e[a]] + e[a + 1..];
    assert multiset(e)['@'] == multiset(e[..a])['@'] + 1 + multiset(e[a + 1..])['@'];
    if multiset(e)['@'] == 1 {
      forall k | 0 <= k < |e| && k != a ensures e[k] != '@' {
        if k < a {
          assert e[k] == e[..a][k];
        } else {
          assert e[k] == e[a + 1..][k - a - 1];
        }
      }
    }
  }

  const WeakPasswords: seq<string> := ["password", "123456", "12345678", "qwerty", "abc123"]
  const MinPasswordLength: int := 8

  /** Code units a character takes in UTF-16: two for a character beyond the Basic
      Multilingual Plane, one otherwise. */
  function Utf16Units(c: char): nat {
    if c as int >= 0x10000 then 2 else 1
  }

  /** JavaScript's `s.length`: the number of UTF-16 code units of `s`. */
  function Utf16Length(s: string): (n: nat)
    ensures |s| <= n <= 2 * |s|
  {
    if s == [] then 0 else Utf16Units(s[0]) + Utf16Length(s[1..])
  }

  /** Text within the Basic Multilingual Plane has one code unit per character. */
  lemma {:induction false} Utf16LengthBmp(s: string)
    requires forall k :: 0 <= k < |s| ==> s[k] as int < 0x10000
    ensures Utf16Length(s) == |s|
  {
    if s != [] {
      assert forall k :: 0 <= k < |s[1..]| ==> s[1..][k] == s[k + 1];
      Utf16LengthBmp(s[1..]);
    }
  }

  /** The two password checks, in the order the route applies them; the length is counted in
      UTF-16 code units, as `password.length` counts it. */
  function PasswordCheck(p: string): (r: Option<Rejection>)
    ensures r.None? <==> Utf16Length(p) >= MinPasswordLength && Lower(p) !in WeakPasswords
    ensures r.Some? ==> r.value == ShortPassword || r.value == WeakPassword
    ensures r == Some(ShortPassword) <==> Utf16Length(p) < MinPasswordLength
  {
    if Utf16Length(p) < MinPasswordLength then Some(ShortPassword)
    else if Lower(p) in WeakPasswords then Some(WeakPassword)
    else None
  }

  /** Four characters beyond the Basic Multilingual Plane make eight code units: long enough. */
  lemma AstralPasswordLongEnough(p: string)
    requires |p| == 4 && forall k :: 0 <= k < 4 ==> p[k] as int >= 0x10000
    ensures PasswordCheck(p).None?
  {
    assert Utf16Length(p[3..]) == 2;
    assert Utf16Length(p[2..]) == 4;
    assert Utf16Length(p[1..]) == 6;
    assert Lower(p)[0] == p[0];
  }

  /** Only the eight-character entries of the weak list can reject a password that passed the
      length check, and they do so whatever the case of its letters. */
  lemma WeakOnlyByLongEntries(p: string)
    requires Utf16Length(p) >= MinPasswordLength
    ensures PasswordCheck(p) == Some(WeakPassword) <==> Lower(p) == "password" || Lower(p) == "12345678"
  {
    var short := ["123456", "qwerty", "abc123"];
    if Lower(p) in short {
      assert forall k :: 0 <= k < |p| ==> p[k] as int < 0x10000 by {
        forall k | 0 <= k < |p| ensures p[k] as int < 0x10000 {
          assert Lower(p)[k] == LowerChar(p[k]);
        }
      }
      Utf16LengthBmp(p);
      assert false;
    }
  }

  /** The checks after the rate limit, in the route's order. */
  function Validate(body: SignupBody, userExists: bool): (r: Response)
    ensures r != TooManyAttempts
    ensures !Present(body.email) || !Present(body.password) || !Present(body.name) ==> r == BadRequest(MissingField)
    ensures r == Created <==>
              && Present(body.email) && Present(body.password) && Present(body.name)
              && EmailRegex(body.email.value) && PasswordCheck(body.password.value).None?
              && !userExists
    ensures r == Conflict ==> userExists
    ensures Present(body.email) && Present(body.password) && Present(body.name) ==>
              && (!EmailRegex(body.email.value) ==> r == BadRequest(InvalidEmail))
              && (EmailRegex(body.email.value) && PasswordCheck(body.password.value).Some? ==>
                    r == BadRequest(PasswordCheck(body.password.value).value))
              && (EmailRegex(body.email.value) && PasswordCheck(body.password.value).None? && userExists ==>
                    r == Conflict)
  {
    if !Present(body.email) || !Present(body.password) || !Present(body.name) then BadRequest(MissingField)
    else if !EmailRegex(body.email.value) then BadRequest(InvalidEmail)
    else match PasswordCheck(body.password.value)
      case Some(reason) => BadRequest(reason)
      case None => if userExists then Conflict else Created
  }

  /** `POST`: the rate limiter is consulted first, for every request, and only a request it lets
      through is validated. */
  method Post(limiter: RateLimiter, requestIp: Option<string>, forwardedFor: Option<string>, now: int,
              body: SignupBody, userExists: bool) returns (r: Response)
    requires limiter.Valid()
    modifies limiter
    ensures limiter.Valid()
    ensures limiter.attempts == LimitStep(old(limiter.attempts), ClientIp(requestIp, forwardedFor), now).attempts
    ensures r == (if LimitStep(old(limiter.attempts), ClientIp(requestIp, forwardedFor), now).limited
                  then TooManyAttempts else Validate(body, userExists))
  {
    var ip := ClientIp(requestIp, forwardedFor);
    var limited := limiter.IsRateLimited(ip, now);
    if limited {
      return TooManyAttempts;
    }
    r := Validate(body, userExists);
  }
}
