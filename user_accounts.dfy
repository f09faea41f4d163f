/** The account handlers (warehouse/routes/view-data/user.js): registration, e-mail
    verification and the forgot-password token lifecycle. */
module UserAccounts {
  import opened Common
  import opened Models
  import opened Responses
  import opened Store
  import opened Authentication
  import opened Text

  // ---- date-fns differences ----

  const DayMillis: int := 86400000
  const HourMillis: int := 3600000

  /** Integer division rounding toward zero, as date-fns rounds its differences. */
  function TruncDiv(a: int, b: int): int
    requires b > 0
  {
    if a >= 0 then a / b else -((-a) / b)
  }

  /** `differenceInDays(now, t)`: whole days from `t` to `now`, negative when `t` is later. */
  function DifferenceInDays(now: Timestamp, t: Timestamp): (r: int)
    ensures now >= t ==> r >= 0 && r * DayMillis <= now - t < (r + 1) * DayMillis
    ensures now < t ==> r <= 0 && (r - 1) * DayMillis < now - t <= r * DayMillis
  {
    TruncDiv(now - t, DayMillis)
  }

  /** `differenceInHours(now, t)`: whole hours from `t` to `now`, negative when `t` is later. */
  function DifferenceInHours(now: Timestamp, t: Timestamp): (r: int)
    ensures now >= t ==> r >= 0 && r * HourMillis <= now - t < (r + 1) * HourMillis
    ensures now < t ==> r <= 0 && (r - 1) * HourMillis < now - t <= r * HourMillis
  {
    TruncDiv(now - t, HourMillis)
  }

  /** "At most one whole day" means less than two days have passed. */
  lemma AtMostOneDay(now: Timestamp, t: Timestamp)
    ensures DifferenceInDays(now, t) <= 1 <==> now - t < 2 * DayMillis
  {
    var d := now - t;
    if d >= 0 {
      assert d / DayMillis <= 1 <==> d < 2 * DayMillis;
    } else {
      assert -((-d) / DayMillis) <= 0;
    }
  }

  /** "Under one whole hour" means less than an hour has passed. */
  lemma UnderOneHour(now: Timestamp, t: Timestamp)
    ensures DifferenceInHours(now, t) < 1 <==> now - t < HourMillis
  {
    var d := now - t;
    if d >= 0 {
      assert d / HourMillis < 1 <==> d < HourMillis;
    } else {
      assert -((-d) / HourMillis) <= 0;
    }
  }

  // ---- appending a user ----

  lemma AppendUserKeepsValid(users: seq<User>, u: User)
    requires UsersValid(users) && u.id !in UserIds(users) && u.email !in Emails(users)
    ensures UsersValid(users + [u])
    ensures UserIds(users + [u]) == UserIds(users) + [u.id]
    ensures Emails(users + [u]) == Emails(users) + [u.email]
  {
    assert UserIds(users + [u]) == UserIds(users) + [u.id];
    assert Emails(users + [u]) == Emails(users) + [u.email];
  }

  // ---- registerUserAccount ----

  /** The account `registerUserAccount` creates: unverified, a normal user, never sent a
      verification mail nor asked for a password reset. */
  function NewAccount(id: UserId, fullName: string, email: string, publicKey: Bytes,
                      verificationToken: string, now: Timestamp): User
  {
    User(id, fullName, email, false, publicKey, NormalUserLevel, verificationToken, None, None, now)
  }

  /** A self-registered account is found under its id and its e-mail, and cannot pass the
      admin gate. */
  lemma RegisteredAccountFound(users: seq<User>, id: UserId, fullName: string, email: string,
                               publicKey: Bytes, verificationToken: string, now: Timestamp)
    requires UsersValid(users) && id !in UserIds(users) && email !in Emails(users)
    ensures var u := NewAccount(id, fullName, email, publicKey, verificationToken, now);
      && FindUser(users + [u], id) == Some(|users|)
      && FindUserByEmail(users + [u], email) == Some(|users|)
      && AdminGate(u).Reject?
  {
    var u := NewAccount(id, fullName, email, publicKey, verificationToken, now);
    AppendUserKeepsValid(users, u);
    IndexOfUnique(UserIds(users + [u]), id, |users|);
    IndexOfUnique(Emails(users + [u]), email, |users|);
  }

  /** `registerUserAccount`; `newId`, `verificationToken` and `now` are what the store,
      the random source and the clock supply. A taken e-mail creates nothing. */
  method RegisterUserAccount(l: Ledger, fullName: string, email: string, publicKey: Bytes,
                             newId: UserId, verificationToken: string, now: Timestamp)
    returns (r: Result<UserId, ErrorCode>)
    requires l.Valid()
    requires 1 <= Utf16Length(fullName) <= 128 && |email| >= 1 && |publicKey| == 32  // the request schema
    requires newId !in UserIds(l.users)  // the store hands out a fresh id
    modifies l`users
    ensures l.Valid()
    ensures email in Emails(old(l.users)) ==> r == Err(AccountAlreadyRegistered) && l.users == old(l.users)
    ensures email !in Emails(old(l.users)) ==>
      r == Ok(newId) && l.users == old(l.users) + [NewAccount(newId, fullName, email, publicKey, verificationToken, now)]
  {
    if email in Emails(l.users) {
      return Err(AccountAlreadyRegistered);
    }
    var u := NewAccount(newId, fullName, email, publicKey, verificationToken, now);
    AppendUserKeepsValid(l.users, u);
    l.users := l.users + [u];
    return Ok(newId);
  }

  // ---- requestEmailVerificationEmailAgain ----

  /** `requestEmailVerificationEmailAgain` for the signed-in `user` at time `now`. It
      changes nothing: the re-send itself is not implemented. */
  function ResendVerification(user: User, now: Timestamp): (r: Result<bool, ErrorCode>)
    ensures r == Err(EmailAlreadyVerified) <==> user.emailVerified
    ensures r == Err(IneligibleTooSoon) <==>
      !user.emailVerified && user.lastEmailVerificationSent.Some?
      && now - user.lastEmailVerificationSent.value < 2 * DayMillis
    ensures r.Ok? <==>
      !user.emailVerified
      && (user.lastEmailVerificationSent.None? || now - user.lastEmailVerificationSent.value >= 2 * DayMillis)
    ensures r.Err? ==> r.error in {EmailAlreadyVerified, IneligibleTooSoon}
  {
    if user.emailVerified then Err(EmailAlreadyVerified)
    else if user.lastEmailVerificationSent.Some? then
      AtMostOneDay(now, user.lastEmailVerificationSent.value);
      if DifferenceInDays(now, user.lastEmailVerificationSent.value) <= 1 then Err(IneligibleTooSoon) else Ok(true)
    else Ok(true)
  }

  // ---- verifyEmailWithToken ----

  /** The checks of `verifyEmailWithToken`, in order. `timingSafeEqual` compares the
      UTF-8 bytes of the two tokens and throws (`HandlerThrew`) when their byte lengths
      differ; equal bytes mean equal strings, as UTF-8 is one-to-one. */
  function VerifyCheck(users: seq<User>, userId: UserId, tokenId: string): (r: Option<ErrorCode>)
    ensures r == Some(UserIdInvalid) <==> userId !in UserIds(users)
    ensures userId in UserIds(users) ==>
      var u := users[FindUser(users, userId).value];
      && (r == Some(EmailAlreadyVerified) <==> u.emailVerified)
      && (r == Some(HandlerThrew) <==> !u.emailVerified && Utf8Length(tokenId) != Utf8Length(u.emailVerificationToken))
      && (r == Some(TokenIdInvalid) <==>
            && !u.emailVerified && Utf8Length(tokenId) == Utf8Length(u.emailVerificationToken)
            && tokenId != u.emailVerificationToken)
      && (r.None? <==> !u.emailVerified && tokenId == u.emailVerificationToken)
  {
    var k := FindUser(users, userId);
    if k.None? then Some(UserIdInvalid)
    else
      var u := users[k.value];
      if u.emailVerified then Some(EmailAlreadyVerified)
      else if Utf8Length(tokenId) != Utf8Length(u.emailVerificationToken) then Some(HandlerThrew)
      else if tokenId != u.emailVerificationToken then Some(TokenIdInvalid)
      else None
  }

  /** The account once its e-mail is verified: flagged, with a fresh token. */
  function Verified(u: User, newToken: string): (r: User)
    ensures r.emailVerified && r.emailVerificationToken == newToken
    ensures r.(emailVerified := u.emailVerified, emailVerificationToken := u.emailVerificationToken) == u
  {
    u.(emailVerified := true, emailVerificationToken := newToken)
  }

  /** Once verified, every later attempt, with any token, is refused as already verified. */
  lemma VerifiedOnce(users: seq<User>, userId: UserId, tokenId: string, newToken: string, laterToken: string)
    requires VerifyCheck(users, userId, tokenId).None?
    ensures var k := FindUser(users, userId).value;
      VerifyCheck(users[k := Verified(users[k], newToken)], userId, laterToken) == Some(EmailAlreadyVerified)
  {
    var k := FindUser(users, userId).value;
    UserIdsAfterUpdate(users, k, Verified(users[k], newToken));
  }

  /** A token of the schema's 32 units checked against a stored hex token (32 ASCII
      characters, as `randomBytes(16).toString('hex')` makes them) is compared without a
      throw when it is ASCII, and makes `timingSafeEqual` throw when it is not. */
  lemma HexTokenComparison(users: seq<User>, userId: UserId, tokenId: string)
    requires userId in UserIds(users)
    requires var u := users[FindUser(users, userId).value];
      !u.emailVerified && |u.emailVerificationToken| == 32 && IsAscii(u.emailVerificationToken)
    requires Utf16Length(tokenId) == 32
    ensures VerifyCheck(users, userId, tokenId) == Some(HandlerThrew) <==> !IsAscii(tokenId)
  {
    var u := users[FindUser(users, userId).value];
    AsciiLengths(u.emailVerificationToken);
    Utf8AgainstUtf16(tokenId);
  }

  /** `verifyEmailWithToken`; `newToken` is the fresh random token that replaces the used one. */
  method VerifyEmailWithToken(l: Ledger, userId: UserId, tokenId: string, newToken: string)
    returns (r: Result<bool, ErrorCode>)
    requires l.Valid()
    requires Utf16Length(tokenId) == 32  // the request schema counts UTF-16 code units
    modifies l`users
    ensures l.Valid()
    ensures VerifyCheck(old(l.users), userId, tokenId).Some? ==>
      r == Err(VerifyCheck(old(l.users), userId, tokenId).value) && l.users == old(l.users)
    ensures VerifyCheck(old(l.users), userId, tokenId).None? ==>
      var k := FindUser(old(l.users), userId).value;
      r == Ok(true) && l.users == old(l.users)[k := Verified(old(l.users)[k], newToken)]
  {
    var k := FindUser(l.users, userId);
    if k.None? {
      return Err(UserIdInvalid);
    }
    var u := l.users[k.value];
    if u.emailVerified {
      return Err(EmailAlreadyVerified);
    }
    if Utf8Length(tokenId) != Utf8Length(u.emailVerificationToken) {
      return Err(HandlerThrew);
    }
    if tokenId != u.emailVerificationToken {
      return Err(TokenIdInvalid);
    }
    UserIdsAfterUpdate(l.users, k.value, Verified(u, newToken));
    EmailsAfterUpdate(l.users, k.value, Verified(u, newToken));
    l.users := l.users[k.value := Verified(u, newToken)];
    return Ok(true);
  }

  // ---- requestForgotPassword ----

  /** The checks of `requestForgotPassword`, in order, for the account with e-mail `email`
      at time `now`. */
  function ForgotCheck(users: seq<User>, email: string, now: Timestamp): (r: Option<ErrorCode>)
    ensures r == Some(UserIdInvalid) <==> email !in Emails(users)
    ensures email in Emails(users) ==>
      var u := users[FindUserByEmail(users, email).value];
      && (r == Some(EmailNotVerified) <==> !u.emailVerified)
      && (r == Some(RequestedLessThanOneHourAgo) <==>
            u.emailVerified && u.lastRequestPasswordRequest.Some? && now - u.lastRequestPasswordRequest.value < HourMillis)
      && (r.None? <==>
            u.emailVerified
            && (u.lastRequestPasswordRequest.None? || now - u.lastRequestPasswordRequest.value >= HourMillis))
  {
    var k := FindUserByEmail(users, email);
    if k.None? then Some(UserIdInvalid)
    else
      var u := users[k.value];
      if !u.emailVerified then Some(EmailNotVerified)
      else if u.lastRequestPasswordRequest.Some? then
        UnderOneHour(now, u.lastRequestPasswordRequest.value);
        if DifferenceInHours(now, u.lastRequestPasswordRequest.value) < 1 then Some(RequestedLessThanOneHourAgo)
        else None
      else None
  }

  /** The ids of the forgot-password tokens held for user `u`. */
  function TokensOf(tokens: map<TokenId, ForgotPasswordToken>, u: UserId): set<TokenId>
  {
    set t | t in tokens && tokens[t].user == u
  }

  /** `ForgotPasswordToken.deleteMany({user: u})`. */
  function WithoutTokensOf(tokens: map<TokenId, ForgotPasswordToken>, u: UserId): (r: map<TokenId, ForgotPasswordToken>)
    ensures forall t :: t in r <==> t in tokens && tokens[t].user != u
    ensures forall t :: t in r ==> r[t] == tokens[t]
  {
    map t | t in tokens && tokens[t].user != u :: tokens[t]
  }

  /** After a reset request the user holds exactly the new token, and every other user's
      tokens are as they were. */
  lemma ExactlyOneToken(tokens: map<TokenId, ForgotPasswordToken>, u: UserId, t: TokenId, secret: Bytes, v: UserId)
    requires t !in tokens
    ensures var tokens' := WithoutTokensOf(tokens, u)[t := ForgotPasswordToken(u, secret)];
      TokensOf(tokens', v) == if v == u then {t} else TokensOf(tokens, v)
  {
  }

  /** `requestForgotPassword` for the account registered under `email`; `newTokenId`,
      `secret` and `now` are what the store, the random source and the clock supply. */
  method RequestForgotPassword(l: Ledger, email: string, now: Timestamp, newTokenId: TokenId, secret: Bytes)
    returns (r: Result<TokenId, ErrorCode>)
    requires l.Valid()
    requires |email| >= 1  // the request schema
    requires newTokenId !in l.tokens && |secret| == 16
    modifies l`users, l`tokens
    ensures l.Valid()
    ensures ForgotCheck(old(l.users), email, now).Some? ==>
      && r == Err(ForgotCheck(old(l.users), email, now).value)
      && l.users == old(l.users) && l.tokens == old(l.tokens)
    ensures ForgotCheck(old(l.users), email, now).None? ==>
      var k := FindUserByEmail(old(l.users), email).value;
      var u := old(l.users)[k];
      && r == Ok(newTokenId)
      && l.users == old(l.users)[k := u.(lastRequestPasswordRequest := Some(now))]
      && l.tokens == WithoutTokensOf(old(l.tokens), u.id)[newTokenId := ForgotPasswordToken(u.id, secret)]
  {
    var k := FindUserByEmail(l.users, email);
    if k.None? {
      return Err(UserIdInvalid);
    }
    var u := l.users[k.value];
    if !u.emailVerified {
      return Err(EmailNotVerified);
    }
    if u.lastRequestPasswordRequest.Some? && DifferenceInHours(now, u.lastRequestPasswordRequest.value) < 1 {
      return Err(RequestedLessThanOneHourAgo);
    }
    var u' := u.(lastRequestPasswordRequest := Some(now));
    UserIdsAfterUpdate(l.users, k.value, u');
    EmailsAfterUpdate(l.users, k.value, u');
    assert u.id in UserIds(l.users) by {
      assert UserIds(l.users)[k.value] == u.id;
    }
    l.users := l.users[k.value := u'];
    l.tokens := WithoutTokensOf(l.tokens, u.id);
    l.tokens := l.tokens[newTokenId := ForgotPasswordToken(u.id, secret)];
    return Ok(newTokenId);
  }

  // ---- redeemForgotPasswordToken ----

  /** The checks of `redeemForgotPasswordToken`, in order; `HandlerThrew` is the length
      mismatch `timingSafeEqual` throws on. */
  function RedeemCheck(tokens: map<TokenId, ForgotPasswordToken>, tokenId: TokenId, secret: Bytes): (r: Option<ErrorCode>)
    ensures r == Some(TokenNotFound) <==> tokenId !in tokens
    ensures r == Some(HandlerThrew) <==> tokenId in tokens && |secret| != |tokens[tokenId].tokenSecret|
    ensures r == Some(InvalidSecret) <==>
      tokenId in tokens && |secret| == |tokens[tokenId].tokenSecret| && secret != tokens[tokenId].tokenSecret
    ensures r.None? <==> tokenId in tokens && secret == tokens[tokenId].tokenSecret
  {
    if tokenId !in tokens then Some(TokenNotFound)
    else if |secret| != |tokens[tokenId].tokenSecret| then Some(HandlerThrew)
    else if secret != tokens[tokenId].tokenSecret then Some(InvalidSecret)
    else None
  }

  /** A redeemed token is gone: presenting it again, with any secret, finds nothing. */
  lemma TokenSingleUse(tokens: map<TokenId, ForgotPasswordToken>, tokenId: TokenId, secret: Bytes, later: Bytes)
    requires RedeemCheck(tokens, tokenId, secret).None?
    ensures RedeemCheck(tokens - {tokenId}, tokenId, later) == Some(TokenNotFound)
  {
  }

  /** `redeemForgotPasswordToken`: the token's owner gets the proposed key and the token
      is deleted. */
  method RedeemForgotPasswordToken(l: Ledger, tokenId: TokenId, secret: Bytes, proposedKey: Bytes)
    returns (r: Result<bool, ErrorCode>)
    requires l.Valid()
    requires |secret| == 16 && |proposedKey| == 32  // the request schema
    modifies l`users, l`tokens
    ensures l.Valid()
    ensures RedeemCheck(old(l.tokens), tokenId, secret).Some? ==>
      && r == Err(RedeemCheck(old(l.tokens), tokenId, secret).value)
      && l.users == old(l.users) && l.tokens == old(l.tokens)
    ensures RedeemCheck(old(l.tokens), tokenId, secret).None? ==>
      var k := FindUser(old(l.users), old(l.tokens)[tokenId].user).value;
      && r == Ok(true)
      && l.users == old(l.users)[k := old(l.users)[k].(publicKey := proposedKey)]
      && l.tokens == old(l.tokens) - {tokenId}
  {
    if tokenId !in l.tokens {
      return Err(TokenNotFound);
    }
    var token := l.tokens[tokenId];
    if |secret| != |token.tokenSecret| {
      return Err(HandlerThrew);
    }
    if secret != token.tokenSecret {
      return Err(InvalidSecret);
    }
    var k := FindUser(l.users, token.user).value;
    var u := l.users[k].(publicKey := proposedKey);
    UserIdsAfterUpdate(l.users, k, u);
    EmailsAfterUpdate(l.users, k, u);
    l.users := l.users[k := u];
    l.tokens := l.tokens - {tokenId};
    return Ok(true);
  }
}
