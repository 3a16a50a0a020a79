/** pages/Login.tsx: email normalisation and validation, the rewriting of
    authentication errors, the sign-up name default and the form state.
    The two authentication requests are remote calls: their outcomes are
    parameters, and the requests made are returned in order. */
module Login {
  import opened Types
  import opened JsStrings

  // The longer messages are written as concatenations of short literals,
  // which keeps reasoning about their characters cheap for the verifier.
  const EmptyEmailMessage: string := "Please enter your email address."
  const InvalidEmailMessage: string := "Please enter a valid email address."
  const InvalidCredentialsMessage: string := "Invalid email or password."
  const ConnectionFailedMessage: string :=
    "Connection failed." + " Please check your " + "internet connection or project " + "configuration."
  const AutoLoginFailedMessage: string :=
    "Account created, but auto-login failed." + " Please check your Supabase " + "\"Confirm Email\" settings."
  const AuthFailedMessage: string := "Authentication failed."
  const UnreachableMessage: string := "Unable to connect to Supabase." + " Missing environment variables?"
  const DefaultName: string := "Student"

  // ---------------------------------------------------------------------
  // Email normalisation and the pattern ^[^\s@]+@[^\s@]+\.[^\s@]+$
  // ---------------------------------------------------------------------

  /** `email.trim().toLowerCase()` */
  function NormalizeEmail(email: string): (r: string)
    ensures |r| <= |email|
    ensures forall i :: 0 <= i < |r| ==> !('A' <= r[i] <= 'Z')
    ensures r != [] ==> !IsSpace(r[0]) && !IsSpace(r[|r| - 1])
  {
    var t := Trim(email);
    ToLowerProperties(t);
    ToLower(t)
  }

  /** The clean address is the typed one with the white space around it
      removed, lowercased character by character. */
  lemma NormalizeEmailTrimsAndLowers(email: string)
    ensures exists k :: SpaceOutside(email, k, |NormalizeEmail(email)|) && LoweredSliceAt(NormalizeEmail(email), email, k)
  {
    var t := Trim(email);
    LowerOfTrimmed(email, t);
    assert NormalizeEmail(email) == ToLower(t);
  }

  /** `r` is, character by character, the lowercased slice of `s` at `k`. */
  predicate LoweredSliceAt(r: string, s: string, k: int)
  {
    0 <= k && k + |r| <= |s| && forall i :: 0 <= i < |r| ==> r[i] == LowerChar(s[k + i])
  }

  lemma LowerOfTrimmed(s: string, t: string)
    requires exists k :: TrimmedAt(t, s, k)
    ensures exists k :: SpaceOutside(s, k, |t|) && LoweredSliceAt(ToLower(t), s, k)
  {
    var k :| TrimmedAt(t, s, k);
    forall i | 0 <= i < |t| ensures ToLower(t)[i] == LowerChar(s[k + i]) {
      assert t[i] == s[k + i];
    }
    assert LoweredSliceAt(ToLower(t), s, k);
  }

  /** A run of the class `[^\s@]`. */
  predicate NoSpaceOrAt(t: string)
  {
    forall i :: 0 <= i < |t| ==> !IsSpace(t[i]) && t[i] != '@'
  }

  /** The pattern matches: the string splits as local part, '@', domain
      name, '.', and suffix, each part a non-empty run of `[^\s@]`. The
      domain name and the suffix may themselves contain dots. */
  predicate EmailPatternMatches(s: string)
  {
    exists a, j :: 0 < a < |s| && a + 1 < j < |s| - 1 && s[a] == '@' && s[j] == '.' &&
      NoSpaceOrAt(s[..a]) && NoSpaceOrAt(s[a + 1..j]) && NoSpaceOrAt(s[j + 1..])
  }

  /** The number of occurrences of `c` in `s`. */
  function CountChar(s: string, c: char): nat
  {
    if s == [] then 0 else (if s[0] == c then 1 else 0) + CountChar(s[1..], c)
  }

  lemma {:induction false} CountCharAppend(s: string, t: string, c: char)
    ensures CountChar(s + t, c) == CountChar(s, c) + CountChar(t, c)
    decreases |s|
  {
    if s == [] {
      assert s + t == t;
    } else {
      assert (s + t)[1..] == s[1..] + t;
      CountCharAppend(s[1..], t, c);
    }
  }

  lemma {:induction false} CountCharPositive(s: string, c: char, k: int)
    requires 0 <= k < |s| && s[k] == c
    ensures CountChar(s, c) >= 1
    decreases |s|
  {
    if k > 0 {
      CountCharPositive(s[1..], c, k - 1);
    }
  }

  lemma {:induction false} CountCharZero(s: string, c: char)
    requires forall i :: 0 <= i < |s| ==> s[i] != c
    ensures CountChar(s, c) == 0
    decreases |s|
  {
    if s != [] {
      CountCharZero(s[1..], c);
    }
  }

  /** Two occurrences at different positions count twice. */
  lemma {:induction false} CountCharTwo(s: string, c: char, i: int, k: int)
    requires 0 <= i < k < |s| && s[i] == c && s[k] == c
    ensures CountChar(s, c) >= 2
    decreases |s|
  {
    if i == 0 {
      CountCharPositive(s[1..], c, k - 1);
    } else {
      CountCharTwo(s[1..], c, i - 1, k - 1);
    }
  }

  /** The shape an accepted address has: no white space, exactly one '@',
      a non-empty local part, and after the '@' a '.' with text on both sides. */
  predicate EmailShape(s: string)
  {
    && (forall i :: 0 <= i < |s| ==> !IsSpace(s[i]))
    && CountChar(s, '@') == 1
    && exists a, j :: 0 < a < |s| && a + 1 < j < |s| - 1 && s[a] == '@' && s[j] == '.'
  }

  /** An address the pattern accepts has the shape. */
  lemma PatternGivesShape(s: string)
    requires EmailPatternMatches(s)
    ensures EmailShape(s)
  {
    var a, j :| 0 < a < |s| && a + 1 < j < |s| - 1 && s[a] == '@' && s[j] == '.' &&
      NoSpaceOrAt(s[..a]) && NoSpaceOrAt(s[a + 1..j]) && NoSpaceOrAt(s[j + 1..]);
    PatternHasNoSpace(s, a, j);
    PatternHasOneAt(s, a, j);
  }

  /** The three runs, the '@' and the '.' hold no white space. */
  lemma PatternHasNoSpace(s: string, a: int, j: int)
    requires 0 < a < |s| && a + 1 < j < |s| - 1 && s[a] == '@' && s[j] == '.'
    requires NoSpaceOrAt(s[..a]) && NoSpaceOrAt(s[a + 1..j]) && NoSpaceOrAt(s[j + 1..])
    ensures forall i :: 0 <= i < |s| ==> !IsSpace(s[i])
  {
    NoSpaceOrAtSlice(s, 0, a);
    NoSpaceOrAtSlice(s, a + 1, j);
    NoSpaceOrAtSlice(s, j + 1, |s|);
    forall i | 0 <= i < |s|
      ensures !IsSpace(s[i])
    {
      if i == a || i == j {
        assert !IsSpace('@') && !IsSpace('.');
      }
    }
  }

  /** The three runs hold no '@', so the one at `a` is the only one. */
  lemma PatternHasOneAt(s: string, a: int, j: int)
    requires 0 < a < |s| && a + 1 < j < |s| - 1 && s[a] == '@' && s[j] == '.'
    requires NoSpaceOrAt(s[..a]) && NoSpaceOrAt(s[a + 1..j]) && NoSpaceOrAt(s[j + 1..])
    ensures CountChar(s, '@') == 1
  {
    NoSpaceOrAtSlice(s, 0, a);
    NoSpaceOrAtSlice(s, a + 1, j);
    NoSpaceOrAtSlice(s, j + 1, |s|);
    CountOnce(s, a, '@');
  }

  /** A character found at one position and nowhere else counts once. */
  lemma CountOnce(s: string, a: int, c: char)
    requires 0 <= a < |s| && s[a] == c
    requires forall i :: 0 <= i < |s| && i != a ==> s[i] != c
    ensures CountChar(s, c) == 1
  {
    assert s == s[..a] + [s[a]] + s[a + 1..];
    CountCharZero(s[..a], c);
    CountCharZero(s[a + 1..], c);
    CountCharAppend(s[..a] + [s[a]], s[a + 1..], c);
    CountCharAppend(s[..a], [s[a]], c);
  }

  /** A run of `[^\s@]` read back position by position. */
  lemma NoSpaceOrAtSlice(s: string, lo: int, hi: int)
    requires 0 <= lo <= hi <= |s| && NoSpaceOrAt(s[lo..hi])
    ensures forall i :: lo <= i < hi ==> s[i] != '@' && !IsSpace(s[i])
  {
    forall i | lo <= i < hi
      ensures s[i] != '@' && !IsSpace(s[i])
    {
      assert s[i] == s[lo..hi][i - lo];
    }
  }

  /** An address of the shape is accepted by the pattern. */
  lemma ShapeGivesPattern(s: string)
    requires EmailShape(s)
    ensures EmailPatternMatches(s)
  {
    var a, j :| 0 < a < |s| && a + 1 < j < |s| - 1 && s[a] == '@' && s[j] == '.';
    forall i | 0 <= i < |s| && i != a
      ensures s[i] != '@'
    {
      if s[i] == '@' {
        if i < a {
          CountCharTwo(s, '@', i, a);
        } else {
          CountCharTwo(s, '@', a, i);
        }
      }
    }
    assert NoSpaceOrAt(s[..a]);
    assert NoSpaceOrAt(s[a + 1..j]);
    assert NoSpaceOrAt(s[j + 1..]);
  }

  /** The pattern accepts exactly the strings of that shape. */
  lemma EmailPatternIffShape(s: string)
    ensures EmailPatternMatches(s) <==> EmailShape(s)
  {
    if EmailPatternMatches(s) {
      PatternGivesShape(s);
    }
    if EmailShape(s) {
      ShapeGivesPattern(s);
    }
  }

  // ---------------------------------------------------------------------
  // Error rewriting
  // ---------------------------------------------------------------------

  const FailedToFetch: string := "Failed to fetch"
  const ApiErrorPrefix: string := "AuthApiError: "

  /** The fixed messages the page can show do not mention "Failed to fetch". */
  lemma FixedMessagesClean()
    ensures !Contains(EmptyEmailMessage, FailedToFetch)
    ensures !Contains(InvalidEmailMessage, FailedToFetch)
    ensures !Contains(AutoLoginFailedMessage, FailedToFetch)
    ensures !Contains(UnreachableMessage, FailedToFetch)
  {
    EmptyEmailMessageClean();
    InvalidEmailMessageClean();
    AutoLoginFailedMessageClean();
    UnreachableMessageClean();
  }

  lemma EmptyEmailMessageClean()
    ensures !Contains(EmptyEmailMessage, FailedToFetch)
  {
    NotContainsWithoutChar(EmptyEmailMessage, FailedToFetch, 0);
  }

  lemma InvalidEmailMessageClean()
    ensures !Contains(InvalidEmailMessage, FailedToFetch)
  {
    NotContainsWithoutChar(InvalidEmailMessage, FailedToFetch, 0);
  }

  lemma AutoLoginFailedMessageClean()
    ensures !Contains(AutoLoginFailedMessage, FailedToFetch)
  {
    AutoLoginFailedPieces();
    NotContainsWithoutChar(AutoLoginFailedMessage, FailedToFetch, 0);
  }

  /** The character that starts the searched text appears in no piece. */
  lemma AutoLoginFailedPieces()
    ensures 'F' !in AutoLoginFailedMessage
  {
    AutoLoginFailedPiece1();
    AutoLoginFailedPiece2();
    AutoLoginFailedPiece3();
  }

  lemma AutoLoginFailedPiece1()
    ensures 'F' !in "Account created, but auto-login failed."
  {
  }

  lemma AutoLoginFailedPiece2()
    ensures 'F' !in " Please check your Supabase "
  {
  }

  lemma AutoLoginFailedPiece3()
    ensures 'F' !in "\"Confirm Email\" settings."
  {
  }

  lemma UnreachableMessageClean()
    ensures !Contains(UnreachableMessage, FailedToFetch)
  {
    UnreachablePieces();
    NotContainsWithoutChar(UnreachableMessage, FailedToFetch, 0);
  }

  /** The character that starts the searched text appears in no piece. */
  lemma UnreachablePieces()
    ensures 'F' !in UnreachableMessage
  {
    UnreachablePiece1();
    UnreachablePiece2();
  }

  lemma UnreachablePiece1()
    ensures 'F' !in "Unable to connect to Supabase."
  {
  }

  lemma UnreachablePiece2()
    ensures 'F' !in " Missing environment variables?"
  {
  }

  /** The message the sign-in branch throws for an error response. */
  function SignInErrorMessage(message: string): (r: string)
    ensures Contains(message, "Invalid login") ==> r == InvalidCredentialsMessage
    ensures !Contains(message, "Invalid login") && Contains(message, FailedToFetch) ==> r == ConnectionFailedMessage
    ensures !Contains(message, "Invalid login") && !Contains(message, FailedToFetch) ==> r == message
  {
    if Contains(message, "Invalid login") then InvalidCredentialsMessage
    else if Contains(message, FailedToFetch) then ConnectionFailedMessage
    else message
  }

  /** The message the catch block shows for a thrown error's message: the
      default for an empty one, the first "AuthApiError: " removed, and any
      remaining mention of "Failed to fetch" replaced. */
  function CatchMessage(errMessage: string): (m: string)
    ensures !Contains(m, FailedToFetch)
  {
    var msg := if errMessage != "" then errMessage else AuthFailedMessage;
    var stripped := ReplaceFirst(msg, ApiErrorPrefix, "");
    FixedMessagesClean();
    if Contains(stripped, FailedToFetch) then UnreachableMessage else stripped
  }

  /** A message carrying the "AuthApiError: " tag is shown without it. */
  lemma CatchMessageStripsTag(rest: string)
    requires rest != "" && !Contains(rest, FailedToFetch)
    ensures CatchMessage(ApiErrorPrefix + rest) == rest
  {
    var msg := ApiErrorPrefix + rest;
    assert OccursAt(msg, ApiErrorPrefix, 0);
    var found := IndexOf(msg, ApiErrorPrefix);
    assert found == Some(0);
    assert ReplaceFirst(msg, ApiErrorPrefix, "") == rest by {
      assert msg[..0] + "" + msg[|ApiErrorPrefix|..] == msg[|ApiErrorPrefix|..] == rest;
    }
  }

  /** A plain message (non-empty, untagged, no fetch failure) is shown as is. */
  lemma CatchMessageKeepsPlain(message: string)
    requires message != "" && !Contains(message, ApiErrorPrefix) && !Contains(message, FailedToFetch)
    ensures CatchMessage(message) == message
  {
  }

  /** A thrown error without a message is shown as "Authentication failed.". */
  lemma CatchMessageDefault()
    ensures CatchMessage("") == AuthFailedMessage
  {
    AuthFailedMessageChars();
    NotContainsWithoutChar(AuthFailedMessage, ApiErrorPrefix, 12);
    NotContainsWithoutChar(AuthFailedMessage, FailedToFetch, 0);
    CatchMessageKeepsPlain(AuthFailedMessage);
  }

  /** A message mentioning a fetch failure, tagged or not, is replaced by
      the hint about the missing connection settings. */
  lemma CatchMessageFetchFailure(errMessage: string)
    requires Contains(errMessage, FailedToFetch)
    ensures CatchMessage(errMessage) == UnreachableMessage
  {
    assert errMessage != "";
    assert 'F' !in ApiErrorPrefix && 'A' !in FailedToFetch;
    RemoveFirstKeepsOccurrence(errMessage, ApiErrorPrefix, FailedToFetch);
  }

  /** The two messages the sign-in branch throws reach the page unchanged. */
  lemma CatchMessageKeepsSignInMessages()
    ensures CatchMessage(InvalidCredentialsMessage) == InvalidCredentialsMessage
    ensures CatchMessage(ConnectionFailedMessage) == ConnectionFailedMessage
  {
    InvalidCredentialsChars();
    NotContainsWithoutChar(InvalidCredentialsMessage, ApiErrorPrefix, 0);
    NotContainsWithoutChar(InvalidCredentialsMessage, FailedToFetch, 0);
    CatchMessageKeepsPlain(InvalidCredentialsMessage);
    ConnectionFailedChars();
    NotContainsWithoutChar(ConnectionFailedMessage, ApiErrorPrefix, 0);
    NotContainsWithoutChar(ConnectionFailedMessage, FailedToFetch, 0);
    CatchMessageKeepsPlain(ConnectionFailedMessage);
  }

  lemma AuthFailedMessageChars()
    ensures ':' !in AuthFailedMessage && 'F' !in AuthFailedMessage
  {
  }

  lemma InvalidCredentialsChars()
    ensures 'A' !in InvalidCredentialsMessage && 'F' !in InvalidCredentialsMessage
  {
  }

  /** Neither the tag's nor the fetch failure's first character appears in any piece. */
  lemma ConnectionFailedChars()
    ensures 'A' !in ConnectionFailedMessage && 'F' !in ConnectionFailedMessage
  {
    ConnectionFailedPiece1();
    ConnectionFailedPiece2();
    ConnectionFailedPiece3();
    ConnectionFailedPiece4();
  }

  lemma ConnectionFailedPiece1()
    ensures 'A' !in "Connection failed." && 'F' !in "Connection failed."
  {
  }

  lemma ConnectionFailedPiece2()
    ensures 'A' !in " Please check your " && 'F' !in " Please check your "
  {
  }

  lemma ConnectionFailedPiece3()
    ensures 'A' !in "internet connection or project " && 'F' !in "internet connection or project "
  {
  }

  lemma ConnectionFailedPiece4()
    ensures 'A' !in "configuration." && 'F' !in "configuration."
  {
  }

  // ---------------------------------------------------------------------
  // Submitting the form
  // ---------------------------------------------------------------------

  /** An outcome of an authentication request: a response with or without
      a session, an error response with its message, or a thrown error. */
  datatype AuthOutcome = AuthOk(hasSession: bool) | AuthErr(message: string) | AuthThrew(message: string)

  datatype AuthRequest =
    | SignInWithPassword(email: string, password: string)
    | SignUp(email: string, password: string, name: string)

  /** The requests made, whether the page navigated to the dashboard, and
      the error shown afterwards. */
  datatype SubmitResult = SubmitResult(calls: seq<AuthRequest>, navigated: bool, error: string)

  /** `cleanName || 'Student'` */
  function SignUpName(name: string): (r: string)
    ensures r != ""
    ensures Trim(name) != "" ==> r == Trim(name)
    ensures Trim(name) == "" ==> r == DefaultName
  {
    var clean := Trim(name);
    if clean != "" then clean else DefaultName
  }

  /** The requests `handleSubmit` makes for an accepted address `clean`:
      one sign-in, or one sign-up followed by a sign-in when the sign-up
      succeeded without a session. */
  function RequestsMade(isLogin: bool, clean: string, password: string, name: string,
                        first: AuthOutcome): (calls: seq<AuthRequest>)
    ensures 1 <= |calls| <= 2
    ensures forall k :: 0 <= k < |calls| ==> calls[k].email == clean
    ensures forall k :: 0 <= k < |calls| && calls[k].SignUp? ==> calls[k].name == SignUpName(name)
    ensures isLogin ==> calls == [SignInWithPassword(clean, password)]
  {
    if isLogin then [SignInWithPassword(clean, password)]
    else if first.AuthOk? && !first.hasSession then
      [SignUp(clean, password, SignUpName(name)), SignInWithPassword(clean, password)]
    else [SignUp(clean, password, SignUpName(name))]
  }

  /** The outcome of the sign-in path for an accepted address. */
  function LoginOutcome(calls: seq<AuthRequest>, first: AuthOutcome): (r: SubmitResult)
    ensures r.calls == calls
    ensures r.navigated <==> first.AuthOk? && first.hasSession
    ensures first.AuthOk? ==> r.error == ""
    ensures first.AuthErr? && Contains(first.message, "Invalid login") ==> r.error == InvalidCredentialsMessage
    ensures first.AuthErr? && !Contains(first.message, "Invalid login") && Contains(first.message, FailedToFetch) ==>
              r.error == ConnectionFailedMessage
    ensures first.AuthErr? && !Contains(first.message, "Invalid login") && !Contains(first.message, FailedToFetch) ==>
              r.error == CatchMessage(first.message)
    ensures first.AuthThrew? ==> r.error == CatchMessage(first.message)
  {
    CatchMessageKeepsSignInMessages();
    match first
    case AuthOk(session) => SubmitResult(calls, session, "")
    case AuthErr(m) => SubmitResult(calls, false, CatchMessage(SignInErrorMessage(m)))
    case AuthThrew(m) => SubmitResult(calls, false, CatchMessage(m))
  }

  /** The outcome of the sign-up path for an accepted address. */
  function SignUpOutcome(calls: seq<AuthRequest>, first: AuthOutcome, second: AuthOutcome): (r: SubmitResult)
    ensures r.calls == calls
    ensures r.navigated <==> first.AuthOk? && (first.hasSession || (second.AuthOk? && second.hasSession))
    ensures r.navigated ==> r.error == ""
    ensures !first.AuthOk? ==> r.error == CatchMessage(first.message)
    ensures first.AuthOk? && !first.hasSession && !r.navigated && !second.AuthThrew? ==> r.error == AutoLoginFailedMessage
    ensures first.AuthOk? && !first.hasSession && second.AuthThrew? ==> r.error == CatchMessage(second.message)
  {
    match first
    case AuthErr(m) => SubmitResult(calls, false, CatchMessage(m))
    case AuthThrew(m) => SubmitResult(calls, false, CatchMessage(m))
    case AuthOk(session) =>
      if session then SubmitResult(calls, true, "")
      else
        match second
        case AuthOk(retrySession) =>
          if retrySession then SubmitResult(calls, true, "") else SubmitResult(calls, false, AutoLoginFailedMessage)
        case AuthErr(_) => SubmitResult(calls, false, AutoLoginFailedMessage)
        case AuthThrew(m) => SubmitResult(calls, false, CatchMessage(m))
  }

  /** What `handleSubmit` does, given the outcome of the first request and,
      for a sign-up without a session, of the automatic sign-in. */
  function SubmitOutcome(isLogin: bool, email: string, password: string, name: string,
                         first: AuthOutcome, second: AuthOutcome): SubmitResult
  {
    var clean := NormalizeEmail(email);
    if clean == "" then SubmitResult([], false, EmptyEmailMessage)
    else if !EmailPatternMatches(clean) then SubmitResult([], false, InvalidEmailMessage)
    else
      var calls := RequestsMade(isLogin, clean, password, name, first);
      if isLogin then LoginOutcome(calls, first) else SignUpOutcome(calls, first, second)
  }

  /** An empty or malformed address is rejected with its message and no
      request is made. */
  lemma SubmitRejectsBadEmail(isLogin: bool, email: string, password: string, name: string,
                              first: AuthOutcome, second: AuthOutcome)
    ensures NormalizeEmail(email) == "" ==>
              SubmitOutcome(isLogin, email, password, name, first, second) == SubmitResult([], false, EmptyEmailMessage)
    ensures NormalizeEmail(email) != "" && !EmailShape(NormalizeEmail(email)) ==>
              SubmitOutcome(isLogin, email, password, name, first, second) == SubmitResult([], false, InvalidEmailMessage)
  {
    EmailPatternIffShape(NormalizeEmail(email));
  }

  /** Every request carries the normalised address (trimmed, with no
      capital letters), a request is made only for an address of the
      accepted shape, and a sign-up carries a non-empty name. */
  lemma SubmitRequestsUseCleanEmail(isLogin: bool, email: string, password: string, name: string,
                                    first: AuthOutcome, second: AuthOutcome)
    ensures forall k :: 0 <= k < |SubmitOutcome(isLogin, email, password, name, first, second).calls| ==>
              SubmitOutcome(isLogin, email, password, name, first, second).calls[k].email == NormalizeEmail(email)
    ensures SubmitOutcome(isLogin, email, password, name, first, second).calls != [] ==> EmailShape(NormalizeEmail(email))
    ensures forall k :: 0 <= k < |SubmitOutcome(isLogin, email, password, name, first, second).calls| &&
                        SubmitOutcome(isLogin, email, password, name, first, second).calls[k].SignUp? ==>
              SubmitOutcome(isLogin, email, password, name, first, second).calls[k].name == SignUpName(name)
  {
    var clean := NormalizeEmail(email);
    SubmitCalls(isLogin, email, password, name, first, second);
    if clean != "" && EmailPatternMatches(clean) {
      PatternGivesShape(clean);
    }
  }

  /** The requests of a submission are those of `RequestsMade` for an
      accepted address and none otherwise. */
  lemma SubmitCalls(isLogin: bool, email: string, password: string, name: string,
                    first: AuthOutcome, second: AuthOutcome)
    ensures var clean := NormalizeEmail(email);
            SubmitOutcome(isLogin, email, password, name, first, second).calls ==
              if clean != "" && EmailPatternMatches(clean)
              then RequestsMade(isLogin, clean, password, name, first) else []
  {
  }

  /** The page never shows a raw fetch failure, and navigating leaves no error. */
  lemma SubmitErrorIsRewritten(isLogin: bool, email: string, password: string, name: string,
                               first: AuthOutcome, second: AuthOutcome)
    ensures !Contains(SubmitOutcome(isLogin, email, password, name, first, second).error, FailedToFetch)
    ensures SubmitOutcome(isLogin, email, password, name, first, second).navigated ==>
              SubmitOutcome(isLogin, email, password, name, first, second).error == "" &&
              SubmitOutcome(isLogin, email, password, name, first, second).calls != []
  {
    var clean := NormalizeEmail(email);
    SubmitCalls(isLogin, email, password, name, first, second);
    if clean == "" {
      EmptyEmailMessageClean();
    } else if !EmailPatternMatches(clean) {
      InvalidEmailMessageClean();
    } else if isLogin {
      LoginOutcomeClean(RequestsMade(isLogin, clean, password, name, first), first);
    } else {
      SignUpOutcomeClean(RequestsMade(isLogin, clean, password, name, first), first, second);
    }
  }

  /** The sign-in path shows no raw fetch failure. */
  lemma LoginOutcomeClean(calls: seq<AuthRequest>, first: AuthOutcome)
    ensures !Contains(LoginOutcome(calls, first).error, FailedToFetch)
  {
    assert !Contains("", FailedToFetch);
  }

  /** The sign-up path shows no raw fetch failure. */
  lemma SignUpOutcomeClean(calls: seq<AuthRequest>, first: AuthOutcome, second: AuthOutcome)
    ensures !Contains(SignUpOutcome(calls, first, second).error, FailedToFetch)
  {
    assert !Contains("", FailedToFetch);
    AutoLoginFailedMessageClean();
  }

  /** The body of `handleSubmit` between its `setLoading` calls: the two
      address checks, then the sign-in or sign-up attempt. */
  method Submit(isLogin: bool, email: string, password: string, name: string,
                first: AuthOutcome, second: AuthOutcome)
    returns (calls: seq<AuthRequest>, navigated: bool, message: string)
    ensures SubmitResult(calls, navigated, message) == SubmitOutcome(isLogin, email, password, name, first, second)
  {
    calls, navigated := [], false;
    var cleanEmail := NormalizeEmail(email);
    if cleanEmail == "" {
      message := EmptyEmailMessage;
    } else if !EmailPatternMatches(cleanEmail) {
      message := InvalidEmailMessage;
    } else if isLogin {
      calls, navigated, message := AttemptSignIn(cleanEmail, password, first);
    } else {
      calls, navigated, message := AttemptSignUp(cleanEmail, password, name, first, second);
    }
  }

  /** The `try` block of `handleSubmit` when signing in, with its `catch`:
      the request made, whether the page navigated, and the error shown. */
  method AttemptSignIn(cleanEmail: string, password: string, first: AuthOutcome)
    returns (calls: seq<AuthRequest>, navigated: bool, message: string)
    ensures SubmitResult(calls, navigated, message) == LoginOutcome([SignInWithPassword(cleanEmail, password)], first)
  {
    calls, navigated, message := [SignInWithPassword(cleanEmail, password)], false, "";
    var thrown: Option<string> := None;
    match first {
      case AuthOk(session) =>
        navigated := session;
      case AuthErr(m) =>
        thrown := Some(SignInErrorMessage(m));
      case AuthThrew(m) =>
        thrown := Some(m);
    }
    if thrown.Some? {
      message := CatchMessage(thrown.value);
    }
  }

  /** The `try` block of `handleSubmit` when signing up, with its `catch`:
      the sign-up, the automatic sign-in when the sign-up gave no session,
      whether the page navigated, and the error shown. */
  method AttemptSignUp(cleanEmail: string, password: string, name: string, first: AuthOutcome, second: AuthOutcome)
    returns (calls: seq<AuthRequest>, navigated: bool, message: string)
    ensures calls == RequestsMade(false, cleanEmail, password, name, first)
    ensures SubmitResult(calls, navigated, message) == SignUpOutcome(calls, first, second)
  {
    calls, navigated, message := [SignUp(cleanEmail, password, SignUpName(name))], false, "";
    var thrown: Option<string> := None;
    match first {
      case AuthErr(m) =>
        thrown := Some(m);
      case AuthThrew(m) =>
        thrown := Some(m);
      case AuthOk(session) =>
        if session {
          navigated := true;
        } else {
          calls := calls + [SignInWithPassword(cleanEmail, password)];
          match second {
            case AuthOk(retrySession) =>
              if retrySession {
                navigated := true;
              } else {
                message := AutoLoginFailedMessage;
              }
            case AuthErr(_) =>
              message := AutoLoginFailedMessage;
            case AuthThrew(m) =>
              thrown := Some(m);
          }
        }
    }
    if thrown.Some? {
      message := CatchMessage(thrown.value);
    }
  }

  /** The form's state. */
  class LoginPage {
    var isLogin: bool
    var name: string
    var email: string
    var password: string
    var isLoading: bool
    var error: string

    constructor ()
      ensures isLogin && name == "" && email == "" && password == "" && !isLoading && error == ""
    {
      isLogin, name, email, password := true, "", "", "";
      isLoading, error := false, "";
    }

    /** `handleEmailChange`: typing clears a shown error. */
    method HandleEmailChange(value: string)
      modifies this`email, this`error
      ensures email == value && error == ""
    {
      email := value;
      if error != "" {
        error := "";
      }
    }

    /** `handlePasswordChange`: typing clears a shown error. */
    method HandlePasswordChange(value: string)
      modifies this`password, this`error
      ensures password == value && error == ""
    {
      password := value;
      if error != "" {
        error := "";
      }
    }

    /** The name field's change handler. */
    method HandleNameChange(value: string)
      modifies this`name
      ensures name == value
    {
      name := value;
    }

    /** `switchMode`: between signing in and signing up, clearing the error. */
    method SwitchMode()
      modifies this`isLogin, this`error
      ensures isLogin == !old(isLogin) && error == ""
    {
      isLogin := !isLogin;
      error := "";
    }

    /** `handleSubmit`: validates the address, makes the requests whose
        outcomes are `first` and `second`, and ends with `isLoading` false
        on every path. */
    method HandleSubmit(first: AuthOutcome, second: AuthOutcome) returns (calls: seq<AuthRequest>, navigated: bool)
      modifies this`isLoading, this`error
      ensures SubmitOutcome(isLogin, email, password, name, first, second) == SubmitResult(calls, navigated, error)
      ensures !isLoading
    {
      var login, address, pass, given := isLogin, email, password, name;
      isLoading := true;
      error := "";
      var message;
      calls, navigated, message := Submit(login, address, pass, given, first, second);
      error := message;
      isLoading := false;
      assert isLogin == login && email == address && password == pass && name == given;
    }
  }
}
