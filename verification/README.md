# Verified model of the authentication platform and chat backend

A Dafny model of the parts of the NestJS backend that hold state or rewrite text, with proofs about
every sequence of calls. `dafny verify dfyconfig.toml` checks the whole project.

## What is modelled

The core is the authentication service over its shared key/value store. Sessions, one-time codes,
attempt counters, blocks, the login limiter and the access-token blacklist are all string keys with
expiry times in that store, and the user rows sit in one table.

| file | what it holds |
|---|---|
| `KeyValue.dfy`, `RedisService.dfy` | the expiring store as a value; `RedisService` as a class with its in-memory fallback; Redis glob matching |
| `AuthKeys.dfy` | the string keys, how they are read back, and the copy of the string store over structured keys |
| `AuthModel.dfy` | what each call does, as a function: new state, outcome, events for the history |
| `AuthService.dfy` | `AuthService`, `SessionService`, `AuthGuard` as classes on the string store, proved to do exactly that |
| `AuthAnswers.dfy`, `UserRows.dfy` | what each call answers, what it leaves in the store entry by entry and in the user rows field by field |
| `AuthEffects.dfy` | every call as a chain of sixteen guarded primitive effects; what each effect can touch |
| `SessionHistory.dfy`, `AccessRevocation.dfy`, `Accounts.dfy`, `OtpLifecycle.dfy` | theorems about runs: refresh sessions, blacklisted access tokens, verification and password reset, one-time codes |
| `FixedWindow.dfy`, `AttemptBounds.dfy`, `BoundAttained.dfy` | how many logins, codes and guesses fit into a span of time |
| `CodeGuesses.dfy` | how often one stored code can be guessed at |
| `Presence.dfy` | who is online: two inverse maps, trailing database writes, overlapping calls |
| `UploadKeys.dfy`, `Usernames.dfy`, `Text.dfy` | string rewriting |
| `Conversations.dfy` | rooms, members and admins |
| `MessagePaging.dfy`, `Pagination.dfy` | cursor paging and page arithmetic |

How the proofs hang together: the methods of the service classes equal the functions of `AuthModel`
on the store the code really uses (`AuthKeys.Encodes`); each call decomposes into effects
(`AuthEffects.StepDecomposes`, `RunIsChain`); an invariant kept by every effect holds in every run.

## Reading the theorems

- One call is one atomic step, and time passes only between calls. `Presence` is the exception: there,
  calls interleave in what they still have to write.
- A store entry with a time-to-live of t seconds is there strictly before its expiry and gone from then on.
  The store and the application read the same clock.
- Rows that database lookups by identifier, email or provider return, generated one-time tokens and codes, the
  roles and permissions signed into a token, bcrypt verdicts and tenant resolution are inputs of a call. The
  theorems hold for all of them. Lookups by reset or verification token are constrained to what the table holds.
- A refresh token is a function of its user, tenant, roles and second of issue (`Env.mint`). That different
  grants give different tokens (`MintsFaithfully`) is assumed only where a theorem says so, and so is that
  SHA-256 has no collisions (`CollisionFree`). One-time tokens are not assumed to be fresh unless a theorem says
  so (`DistinctTokens`).
- User ids contain no `:` and no character that Redis patterns treat specially (`PlainId`). Tenants are
  unrestricted: two triples are the same subject exactly when their key tail is the same, and
  `ScopesAgreeIff` says when that is.

## Where the code does not do what one would expect

Each of these is proved, with the exact condition under which the expected property holds.

- Refresh tokens carry no unique id. A refresh in the second in which its token was minted, with the same roles,
  hands out the token it was given and leaves the caller without a session; in any other second it does not
  (`RefreshLosesSessionIff`, `RefreshKeepsSessionCount`, `RefreshWithinOneSecondLosesSession`).
- An access token without an expiry is blacklisted for one second only (`TokenWithoutExpiryComesBack`).
- The limits on guesses belong to a triple of purpose, tenant and identifier. A code presented with its token is
  found under whatever tenant and purpose the request names, and a wrong guess counts for the code's own triple
  exactly when it names that triple (`GuessCountsIffOwnTriple`). So guesses at one code are bounded for each triple
  that they name (`NamedTriplesBoundGuesses`, `OwnTripleBoundsGuesses`), and with the number of triples there is
  no bound (`TenantsLiftTheBound`).
- With the in-memory fallback an identifier once over the login limit stays locked out for good
  (`FallbackLockoutIsForever`).
- Adding a socket id that belongs to another user breaks the presence index (`AddKeepsInverseIff`).
- A presence flag can be left stale by overlapping calls (`OverlappingCallsLeaveStaleFlag`): once all calls are
  done the flags are right exactly when for every user the flag write performed last is the one asked for last
  (`FlagsMatchIff`), which is so when no two calls of one user overlap (`SeparateCallsKeepFlags`).
- A heartbeat renews a flag but does not set it again: a connected user whose heartbeat is late once stays without
  a flag until the next connect (`FlagThereIff`).
- A row left "online" by an earlier process stays so until its user connects (`DatabaseCatchesUpIff`).
- A direct room that everybody has left answers every later request for a direct chat
  (`EmptiedRoomAnswersEveryRequest`, `DirectRoomCreatedIff`).
- A cursor whose message was deleted meanwhile makes paging lose a message (`PageContinuesIff`), and so does a
  cursor from another room (`ForeignCursorContinuesIff`).
- Normalising an upload key twice is the same as once exactly when the key is relative and does not begin with
  `uploads/` (`NormalizingTwiceIff`).
- Tenants named `global` or containing `:` can share the keys of others (`ScopesAgreeIff`).

The documentation disagrees with the code in two places, and the model follows the code:
docs/auth-platform-api.md sets a refresh lifetime of 30 days, but the store keeps a session for seven
days only; and its OTP limits apply in production only.

## Model

| member | source | states |
|---|---|---|
| Redis.BackendsAgreeOnPrefixes | src/redis/redis.service.ts:226-234 | on a literal prefix followed by `*`, the server's glob matching and the fallback's prefix test select the same keys |
| Redis.RedisService.Set | src/redis/redis.service.ts:74-84 | stores the value with its expiry on the server and without one in the fallback |
| Redis.RedisService.Expire | src/redis/redis.service.ts:101-106 | gives an existing entry a new expiry, or deletes it when that is not positive; nothing in the fallback |
| Redis.RedisService.Incr | src/redis/redis.service.ts:249-256 | counts up from 1 and keeps the expiry of an existing counter |
| Redis.RedisService.Keys | src/redis/redis.service.ts:226-234 | every live key the pattern selects, once each, and no other |
| Redis.RedisService.FlushPrefix | src/redis/redis.service.ts:236-245 | removes exactly the selected entries |
| AuthKeys.RoundTrip | src/modules/auth/auth.service.ts:1406-1445 | every key of every family is read back from its string, so families are disjoint and each is injective |
| AuthKeys.RenderInjective | src/modules/auth/auth.service.ts:1406-1445 | two keys share a string exactly when they are the same key |
| AuthKeys.ScopesAgreeIff | src/modules/auth/auth.service.ts:1410-1445 | any two tenant and identifier pairs share their OTP and rate keys iff tenant texts and lower-cased identifiers agree, or one tenant text is the other with the beginning of the other's identifier attached |
| AuthKeys.ScopeInjective | src/modules/auth/auth.service.ts:1410-1445 | so tenants without `:` other than `global` keep their triples apart |
| AuthKeys.ScopesCollide | src/modules/auth/auth.service.ts:1416 | two pairs of pairs that collide |
| AuthKeys.SessionPatternExact | src/modules/auth/auth.service.ts:1334-1336 | the revocation pattern selects the user's own session keys and nobody else's, on server and fallback |
| AuthKeys.EncodesSet | src/redis/redis.service.ts:74-84 | setting a rendered key does on the string store what setting the key does on the structured store |
| AuthKeys.EncodesDel | src/redis/redis.service.ts:86-91 | the same for deletion |
| AuthKeys.EncodesIncr | src/redis/redis.service.ts:249-256 | the same for counting, with the same count |
| AuthKeys.EncodesAdvance | src/redis/redis.service.ts:74-84 | the same for the passing of time |
| AuthEffects.EffectFrame | src/modules/auth/auth.service.ts:1406-1445 | an effect leaves every key of other triples, users and families alone |
| AuthServices.SessionService.RevokeAll | src/modules/session/session.service.ts:22-29 | leaves the same store as the authentication service's own revocation and reports the number of live sessions |
| AuthServices.SessionService.FindByUser | src/modules/session/session.service.ts:8-20 | one record for each live session of the user |
| AuthServices.AuthService.RevokeUserSessions | src/modules/auth/auth.service.ts:1331-1342 | deletes exactly the user's sessions and latest token |
| AuthServices.AuthService.Elapse | src/redis/redis.service.ts:74-84 | the passing of time on the string store, as in the model |
| AuthServices.AuthService.RevokeAll | src/modules/session/session.service.ts:22-29 | revocation through the session service leaves the authentication service in the modelled state |
| AuthServices.AuthGuard.CanActivate | src/common/guards/auth.guard.ts:43-96 | lets in exactly the subject of a token that is signed, not expired and not blacklisted, if that user is there and not banned |
| AuthServices.AuthService.RefreshTokens | src/modules/auth/auth.service.ts:553-574 | equals the modelled refresh on the string store |
| AuthServices.AuthService.Logout | src/modules/auth/auth.service.ts:542-551 | equals the modelled logout |
| AuthServices.AuthService.SendOtp | src/modules/auth/auth.service.ts:269-346 | equals the modelled send, error cases included |
| AuthServices.AuthService.CheckCode | src/modules/auth/auth.service.ts:410-443 | equals the modelled check of a code up to its deletion |
| AuthServices.AuthService.VerifyOtp | src/modules/auth/auth.service.ts:410-540 | equals the modelled verification for all three purposes |
| AuthServices.AuthService.Login | src/modules/auth/auth.service.ts:212-267 | equals the modelled login by password, code or provider |
| AuthServices.AuthService.Register | src/modules/auth/auth.service.ts:79-171 | equals the modelled registration, duplicate emails and phones refused |
| AuthServices.AuthService.ForgotPassword | src/modules/auth/auth.service.ts:595-636 | equals the modelled request for a reset, by link or by a password-reset code to the given email |
| AuthServices.AuthService.FindByResetToken | src/modules/auth/auth.service.ts:639-644 | finds a row with the token that has not run out, and none only if there is none |
| AuthServices.AuthService.ResetPassword | src/modules/auth/auth.service.ts:638-660 | equals the modelled reset |
| AuthServices.AuthService.ChangePassword | src/modules/auth/auth.service.ts:662-685 | equals the modelled change |
| AuthServices.AuthService.BumpKey | src/modules/auth/auth.service.ts:868-873 | counts and, on the first hit, opens the window |
| Text.TrimIs | src/modules/auth/auth.service.ts:270 | trimming takes away the spaces at both ends and nothing else |
| Text.LowerAt | src/modules/auth/auth.service.ts:869 | lower-casing plain text moves the letters A-Z and nothing else |
| AuthAnswers.GuardLetsInIff | src/common/guards/auth.guard.ts:49-89 | the same of the modelled guard, for every token and user |
| AuthAnswers.PasswordLoginIff | src/modules/auth/auth.service.ts:212-244 | a password login signs in a user iff the attempt is below the limit, the tenant resolves, the row found is that user's, has a password, the password matches, and the account is neither banned nor waiting for its first verification |
| AuthAnswers.ProviderLoginIff | src/modules/auth/auth.service.ts:834-866 | a provider login signs in a user iff below the limit, the tenant resolves, the linked user is there and not waiting for verification |
| AuthAnswers.CodeLoginIff | src/modules/auth/auth.service.ts:822-832 | a login by code signs in a user iff below the limit and the code is the stored login code, not blocked, for that open account |
| AuthAnswers.LoginRefusals | src/modules/auth/auth.service.ts:212-244 | what any other login is answered, and that it changes nothing but the limiter |
| AuthAnswers.LoginIsExact | src/modules/auth/auth.service.ts:212-267 | what a login leaves in the store, entry by entry |
| AuthAnswers.IssuingIsExact | src/modules/auth/auth.service.ts:718-756 | the session record and the latest token, with their contents, for 604800 seconds, and nothing else |
| AuthAnswers.SigningInIsExact | src/modules/auth/auth.service.ts:1361-1377 | and the presence flag for 120 seconds |
| AuthAnswers.RefreshIsExact | src/modules/auth/auth.service.ts:553-574 | the new session in place of the one presented; everything else stays |
| AuthAnswers.RefusedRefresh | src/modules/auth/auth.service.ts:553-574 | a refresh that is refused changes nothing |
| AuthAnswers.LogoutIsExact | src/modules/auth/auth.service.ts:542-551 | sessions and flag gone, the access token blacklisted to its expiry iff it still verifies; everything else stays |
| AuthAnswers.ReachedIsFound | src/modules/auth/auth.service.ts:1224-1251 | a request reaches the code under its token if the identifier fits, else the one under the identifier by email, else by phone |
| AuthAnswers.AcceptedIff | src/modules/auth/auth.service.ts:410-443 | a code is accepted for a user iff it is the one reached, the triple named is not blocked, and the user, stored or found, exists |
| AuthAnswers.VerificationTurnedAway | src/modules/auth/auth.service.ts:410-419 | unresolved tenants and blocked triples are refused without any change |
| AuthAnswers.VerificationOfNothing | src/modules/auth/auth.service.ts:426-429 | a request that reaches no code is answered as a wrong code |
| AuthAnswers.VerificationAnswers | src/modules/auth/auth.service.ts:426-540 | what a request that reaches a code is answered, for each purpose |
| AuthAnswers.RightCodeIsExact | src/modules/auth/auth.service.ts:431-443 | a right code clears the two counters, spares blocks, is removed if its user is there, and a sign-in writes its entries; everything else stays |
| AuthAnswers.ChannelIs | src/modules/auth/auth.service.ts:1118-1160 | where a code is sent |
| AuthAnswers.PurposeIs | src/modules/auth/auth.service.ts:1162-1183 | what a code is for when the caller does not say |
| AuthAnswers.PhoneNumberIff | src/modules/auth/auth.service.ts:1118-1160 | which identifiers count as phone numbers |
| AuthAnswers.SendTurnedAway | src/modules/auth/auth.service.ts:269-320 | the requests for which no code is made out, their answers, and that they change nothing |
| AuthAnswers.SendOverLimit | src/modules/auth/auth.service.ts:1469-1499 | the fourth code of a window is refused and blocks its triple for 21600 seconds |
| AuthAnswers.SendIsExact | src/modules/auth/auth.service.ts:318-346 | otherwise exactly this code is stored under its identifier and its token for 300 or 600 seconds, and counted in production |
| AuthAnswers.RegistrationChannelIs | src/modules/auth/auth.service.ts:1071-1116 | which address a registration confirms |
| AuthAnswers.RegistrationRefused | src/modules/auth/auth.service.ts:79-110 | the registrations that are refused, and that they change nothing |
| AuthAnswers.RegistrationAdds | src/modules/auth/auth.service.ts:112-128 | the row a registration adds |
| AuthAnswers.RegistrationSends | src/modules/auth/auth.service.ts:141-157 | and the code it sends |
| AuthAnswers.ForgottenPassword | src/modules/auth/auth.service.ts:595-636 | what a forgotten password leads to |
| AuthAnswers.PasswordChangeAnswers | src/modules/auth/auth.service.ts:662-685 | a password changes iff the user is there, has one and it matched |
| AuthAnswers.PasswordEndsSessions | src/modules/auth/auth.service.ts:638-685 | a new password ends the user's sessions and spares the rest of the store |
| AuthAnswers.RowCallsSpareStore | src/modules/auth/auth.service.ts:576-593 | following an email link changes user rows only |
| UserRows.RowChangesExactly | src/modules/auth/auth.service.ts:445-499 | every field of every row after every call: the channel confirmed and no other, the link token cleared iff it is email, passwords and reset tokens only by their calls |
| UserRows.RowsAddedExactly | src/modules/auth/auth.service.ts:112-128 | which rows a call adds, and none besides |
| UserRows.ChannelVerifiedIff | src/modules/auth/auth.service.ts:445-462 | after any run a channel is verified iff the row was added with it or some call confirmed that channel |
| AuthEffects.StepDecomposes | src/modules/auth/auth.service.ts:79-685 | every call is a chain of guarded effects, in state, history and order |
| AuthEffects.RunIsChain | src/modules/auth/auth.service.ts:79-685 | so is every run |
| SessionHistory.SessionsFollow | src/modules/auth/auth.service.ts:718-756 | in every reachable state the session keys and their expiries are what the history of issues, refreshes and revocations says |
| SessionHistory.RefreshAcceptedIff | src/modules/auth/auth.service.ts:553-574 | after any run a refresh token is accepted iff it verifies, was issued to its user less than 604800 seconds ago, and was not spent or revoked since |
| SessionHistory.RefreshAcceptedOfFreshTokens | src/modules/auth/auth.service.ts:553-574 | for tokens issued once: not itself refreshed and no revocation of its user later |
| SessionHistory.SevenDayTokensOutlivedByStore | src/modules/auth/auth.service.ts:1540-1542 | a token that runs at most seven days ends by its own expiry, never by the store's |
| SessionHistory.RefreshKeepsSessionCount | src/modules/auth/auth.service.ts:571-573 | after any run a refresh keeps the number of live sessions, less one iff a session for the same tenant and roles was issued in this second and still lives |
| SessionHistory.RefreshLosesSessionIff | src/modules/auth/auth.service.ts:553-574 | after any run an accepted token was minted when its session was issued, and the refresh loses the session iff it falls into that second with the same roles |
| SessionHistory.RefreshWithinOneSecondLosesSession | src/modules/auth/auth.service.ts:718-756 | then the same token is handed out, the next refresh is refused and there is one session less |
| SessionHistory.SessionLostFromTheStart | src/modules/auth/auth.service.ts:553-574 | a run from the empty store in which this happens |
| SessionHistory.RevocationExact | src/modules/session/session.service.ts:22-29 | revocation takes all of the user's sessions, nothing of anybody else's, and counts them |
| SessionHistory.EndingSessionsIsExact | src/modules/auth/auth.service.ts:542-685 | logout, revocation, password reset and password change leave the user without a session and everybody else with theirs |
| SessionHistory.SignedInHoldsSessionIff | src/modules/auth/auth.service.ts:734-753 | whoever is told to be signed in holds a session of seven days under the token handed out, iff that is not a refresh that mints what it was given |
| AccessRevocation.LoggedOutStaysOut | src/modules/auth/auth.service.ts:1344-1359 | after a logout the guard rejects the access token in every later state of every run |
| AccessRevocation.TokenWithoutExpiryComesBack | src/modules/auth/auth.service.ts:1347-1350 | without an expiry it is let in again a second later |
| Accounts.PendingUsersHoldNoSessions | src/modules/auth/auth.service.ts:1055-1069 | in every reachable state a pending account has no verified channel and no live session |
| Accounts.SignInsAreVerified | src/modules/auth/auth.service.ts:521-524 | no call signs a pending account in, refresh included |
| Accounts.VerificationOpensAccount | src/modules/auth/auth.service.ts:445-462 | a call that confirms a channel, by link or code, opens the account for the rest of any run |
| Accounts.ResetWorksIffDue | src/modules/auth/auth.service.ts:638-660 | a reset token changes a password iff it is its user's newest, unspent and less than ten minutes old; then exactly that row changes, no session is left and the token is spent |
| Accounts.RunsExtend | src/modules/auth/auth.service.ts:79-685 | any legitimate call can follow any run |
| OtpLifecycle.ConsumedAtMostAsOftenAsStored | src/modules/auth/auth.service.ts:1253-1263 | a code is consumed at most as often as it was stored, one less while it lies stored |
| OtpLifecycle.ConsumedAtMostOnce | src/modules/auth/auth.service.ts:1253-1263 | with distinct tokens, at most once |
| OtpLifecycle.OwnTokenFindsCodeIff | src/modules/auth/auth.service.ts:1224-1251 | lookup by its own token and identifier finds a code iff it is within its time-to-live and not consumed, even when overwritten under its identifier |
| OtpLifecycle.SentCodeVerifiesIff | src/modules/auth/auth.service.ts:410-443 | a sent code presented by its token in time is accepted iff it matches, its user exists and the tenant and purpose the request names are not blocked; it is gone afterwards |
| CodeGuesses.GuessCountsIffOwnTriple | src/modules/auth/auth.service.ts:1224-1251 | a wrong guess at a stored code leaves the code, its counter and its block alone iff it names another triple |
| CodeGuesses.NamedTriplesBoundGuesses | src/modules/auth/auth.service.ts:1501-1525 | without a match, at most 2 (d / 300 s + 1) + 2 wrong codes are presented for one stored code for each triple that they name |
| CodeGuesses.OwnTripleBoundsGuesses | src/modules/auth/auth.service.ts:1501-1525 | when requests that give the code's token name its own triple, that is one triple |
| CodeGuesses.TenantsLiftTheBound | src/modules/auth/auth.service.ts:410-429 | otherwise any number are, within one moment, and the right code is still accepted |
| FixedWindow.SpanBound | src/modules/auth/auth.service.ts:868-881 | how many hits a fixed-window counter with closing and penalty admits in any span |
| AttemptBounds.AttemptBound | src/modules/auth/auth.service.ts:1469-1525 | the three limiters in the shared store run as such counters in every run of the service |
| AttemptBounds.LoginBound | src/modules/auth/auth.service.ts:868-881 | at most 10 (d / 60 s + 1) + 9 admitted logins in any span, 19 within any minute |
| AttemptBounds.GuessBound | src/modules/auth/auth.service.ts:1501-1525 | without a match, at most 2 (d / 300 s + 1) + 2 wrong guesses are counted in any span |
| FixedWindow.SpanBoundAttained | src/modules/auth/auth.service.ts:868-881 | for every number of windows such a counter can see as many hits as the bound allows |
| BoundAttained.BoundsAttained | src/modules/auth/auth.service.ts:868-881 | for every number of windows a run of the service from the empty store attains the bound, for logins, codes and wrong guesses alike |
| AttemptBounds.CodeBound | src/modules/auth/auth.service.ts:1469-1499 | without a match, at most 3 (d / ttl + 1) + 2 codes are stored in any span |
| AuthEffects.ResendOverflowBlocks | src/modules/auth/auth.service.ts:1469-1499 | a send sets the block exactly when it is refused for being over the limit |
| AttemptBounds.ThirdWrongGuessBlocksIff | src/modules/auth/auth.service.ts:1501-1525 | a wrong guess blocks its triple, for 21600 seconds, iff it is the third in its window |
| AttemptBounds.BlockHolds | src/modules/auth/auth.service.ts:1447-1467 | until a block ends every send and verification for the triple, its purpose given or resolved, is refused and changes nothing, whatever else is called |
| AttemptBounds.LoginOpensWindow | src/modules/auth/auth.service.ts:868-873 | the first attempt is admitted and opens a window of 60 seconds |
| AttemptBounds.LoginWindowReopens | src/modules/auth/auth.service.ts:868-881 | no attempt moves the end of a window; whatever is called in between, the first attempt after it is admitted and opens the next |
| AttemptBounds.FallbackLockoutIsForever | src/redis/redis.service.ts:101-106 | in the fallback an exhausted limiter never reopens |
| Presence.AddKeepsInverseIff | src/socket/socket-state.service.ts:27-38 | adding a socket keeps the two maps inverse iff it does not belong to another user |
| Presence.DropKeepsInverse | src/socket/socket-state.service.ts:65-80 | removing a socket keeps them inverse, without empty sets |
| Presence.SocketsAddUp | src/socket/socket-state.service.ts:144-149 | the number of sockets is the sum of the users' socket counts |
| Presence.DatabaseCatchesUpIff | src/socket/socket-state.service.ts:27-102 | in any run online and offline writes of a user alternate, and performing the pending ones in order ends at the in-memory state iff the row did not start stale or the user connected |
| Presence.CallAsks | src/socket/socket-state.service.ts:40-90 | every connect asks for the flag, a disconnect for its deletion exactly with the last socket |
| Presence.DatabaseComesFirst | src/socket/socket-state.service.ts:40-90 | in every schedule a call writes to the database before it writes the flag |
| Presence.FlagThereIff | src/modules/presence/presence.gateway.ts:73-78 | in every schedule a user's flag is there iff it was set, not deleted since, and never since went 120 seconds without being set or renewed by a heartbeat |
| Presence.FlagsMatchIff | src/socket/socket-state.service.ts:50-90 | after any interleaving the flags agree with the maps iff for every user the last flag write performed is the last one asked for, or the flag ran out and the user is offline |
| Presence.SeparateCallsKeepFlags | src/socket/socket-state.service.ts:50-90 | in every schedule in which no two calls of one user overlap, a flag is there iff its user is connected and it has been kept up |
| Presence.OverlappingCallsLeaveStaleFlag | src/socket/socket-state.service.ts:50-90 | two overlapping calls that leave a flag behind |
| Presence.SocketStateService.AddSocket | src/socket/socket-state.service.ts:27-48 | gives the socket to the user and writes to the database iff it is the first; the index stays valid iff the socket is free |
| Presence.SocketStateService.RemoveSocket | src/socket/socket-state.service.ts:65-102 | takes the socket from its owner and writes to the database iff it was the last; keeps the index valid |
| Presence.SocketStateService.FilterOnlineUsers | src/socket/socket-state.service.ts:138-140 | those of the given users that own a socket, in their order and as often as given |
| Presence.SocketStateService.GetStats | src/socket/socket-state.service.ts:144-149 | counts online users and all their sockets |
| UploadKeys.KeysDoNotClimb | src/shared/storage.service.ts:165-179 | a key that is not refused has no `..` segment, for every input |
| UploadKeys.DeletionStaysInside | src/shared/storage.service.ts:105-109 | the path deleted is the upload directory's followed by names only |
| UploadKeys.SegmentsCancel | src/shared/storage.service.ts:173 | parent steps cancel the name before them; empty and dot segments say nothing |
| UploadKeys.EveryFormLeadsToKey | src/shared/storage.service.ts:165-171 | any host, any number of slashes and either folder name in front of a key lead to the key |
| UploadKeys.UrlLeadsBackToFileIff | src/shared/storage.service.ts:127-142 | whatever the extension, the URL of a stored file normalises to its key iff no segment of the key is `.`, `..` or empty before the end |
| UploadKeys.UrlLeadsBackToFile | src/shared/storage.service.ts:127-142 | so it does for every extension without separators |
| UploadKeys.DeletionFindsUploadedFile | src/shared/storage.service.ts:123-142 | whatever name a file is sent under, it is written inside the upload directory and deletion by its URL addresses exactly that path |
| UploadKeys.ExtNameIs | src/shared/storage.service.ts:127 | the extension taken from a file name |
| UploadKeys.KeyOfUsualFile | src/shared/storage.service.ts:127-132 | the key of a file: folder, id and lower-cased extension |
| UploadKeys.NormalizingTwiceIff | src/shared/storage.service.ts:165-179 | an accepted key is kept by normalising it again iff it is relative and does not begin with `uploads/` |
| UploadKeys.NormalizingTwiceDiffers | src/shared/storage.service.ts:165-179 | a family of stored files whose keys are not kept |
| Usernames.NormalizersAgree | src/modules/auth/auth.service.ts:1544-1553 | the three normalisers agree on every string before their fallbacks |
| Usernames.NormalizersAreIdempotent | src/bootstrap/admin-seed.service.ts:101-109 | and change nothing the second time |
| Usernames.SlugIsCanonical | src/bootstrap/admin-seed.service.ts:101-109 | results are letters and digits with single underscores between |
| Usernames.SlugIsWords | src/bootstrap/admin-seed.service.ts:101-109 | a result is the words of the lower-cased name joined by underscores |
| Usernames.BaseOfSeed | src/modules/oauth/oauth.service.ts:265-280 | the name made of a seed, short or long |
| Usernames.FourDigitsSpell | src/modules/oauth/oauth.service.ts:281-295 | the number appended to it |
| Usernames.GenerateUniqueUsername | src/modules/oauth/oauth.service.ts:265-295 | the first free of twenty candidates, of 3 to 29 characters from [a-z0-9_]; none only if all are taken |
| Conversations.AtMostOneDirectRoomPerPair | src/modules/conversation/conversation.service.ts:78-100 | in any run at most one direct room is created per pair of users |
| Conversations.DirectRoomCreatedIff | src/modules/conversation/conversation.service.ts:88-135 | a room is created iff no direct room lies within the pair and both users exist |
| Conversations.EmptiedRoomAnswersEveryRequest | src/modules/conversation/conversation.service.ts:88-99 | a direct room that all have left answers every request |
| Conversations.AdminsAreCreators | src/modules/conversation/conversation.service.ts:128-133 | in any run the admin among the members of a room is its creator |
| Conversations.OrphanedRoomsShrink | src/modules/conversation/conversation.service.ts:188-225 | once the creator has left, a room's members only get fewer |
| Conversations.EveryReachableState | src/modules/conversation/conversation.service.ts:73-277 | both hold in every reachable state |
| Conversations.MemberAfter | src/modules/conversation/conversation.service.ts:73-242 | who is a member of any room after any call |
| Conversations.MemberIffPutIn | src/modules/conversation/conversation.service.ts:73-242 | in any run someone is a member iff a creation or addition put them in and no removal or departure since took them out |
| Conversations.CallKeepsRooms | src/modules/conversation/conversation.service.ts:73-242 | rooms keep their kind, creator and admin marks, and come only by creation |
| Conversations.CallAnswers | src/modules/conversation/conversation.service.ts:73-242 | what every call answers |
| Conversations.ConversationService.CreateConversation | src/modules/conversation/conversation.service.ts:73-142 | creates a room of exactly the creator and the participants iff it is no direct chat that exists and all are users; keeps both invariants |
| Conversations.ConversationService.AddMembers | src/modules/conversation/conversation.service.ts:188-207 | adds exactly the given users iff the creator asks, some are new and all new ones are users |
| Conversations.ConversationService.RemoveMember | src/modules/conversation/conversation.service.ts:211-225 | takes exactly the target out of that room iff the creator asks |
| Conversations.ConversationService.LeaveConversation | src/modules/conversation/conversation.service.ts:229-242 | takes exactly the leaving member out |
| Conversations.ConversationService.AssertGroupAdmin | src/modules/conversation/conversation.service.ts:254-277 | lets through exactly the creator of a group room who is still a member; who is refused learns whether the room is unknown, direct or not theirs |
| MessagePaging.FollowingTheCursor | src/modules/message/message.service.ts:154-184 | while messages arrive and others than cursors are deleted, following the cursor ends and collects every message never deleted, none twice, in order, each visible when fetched |
| MessagePaging.FollowingTheCursorRebuildsHistory | src/modules/message/message.service.ts:154-184 | without deletions it collects exactly the messages of the first request |
| MessagePaging.PageContinuesIff | src/modules/message/message.service.ts:154-161 | a page continues right before the cursor iff the cursor is not deleted or nothing is left |
| MessagePaging.PageIsNewest | src/modules/message/message.service.ts:154-161 | a page is as long as the limit and the rows allow and holds the newest of them |
| MessagePaging.ForeignCursorContinuesIff | src/modules/message/message.service.ts:154-161 | a cursor from another room places the page at its time, and the newest message up to then is skipped |
| MessagePaging.QueryIsPageReversed | src/modules/message/message.service.ts:154-184 | the rows of the newest-first query, turned round, are the run of visible messages before the cursor |
| MessagePaging.ListMessages | src/modules/message/message.service.ts:139-185 | that page, turned round in place; nothing for outsiders |
| Pagination.PagesRebuildTheList | src/common/utils/pagination.util.ts:40-58 | pages 1 to totalPages concatenate to the list |
| Pagination.ItemIsOnOnePage | src/common/utils/pagination.util.ts:40-48 | every item is on exactly one page |
| Pagination.Normalize | src/common/utils/pagination.util.ts:28-35 | page and limit given, defaulted to 1 and 20, and held to 1 and 100 |
| Pagination.NextPageIffItemsRemain | src/common/utils/pagination.util.ts:28-69 | a next page is announced iff items remain |

## Left out

- Redis.RedisService.Incr: a value that is no counter, an error on the server and NaN in the fallback; the services never do that (`AuthModel.WellTyped`).
- AuthServices.AuthGuard.CanActivate: public routes, the extraction of a token from header or cookie and the user object attached to the request.
- AuthServices.AuthService.Register: whether the username is taken is an input, since user rows carry no usernames here.
- HTTP controllers, DTO validation, interceptors, mail texts, queues, Socket.IO transport, audit records: I/O without state of its own.
- Interleaving inside authentication and conversation calls: each call is one step.
- Matching of a row to an identifier, email, username or provider account: the row found is an input, so which of several matching rows is picked is not modelled.
- JSON encoding of stored records, user agent and address in session records, message texts of errors.
- Redis hash, set, publish and `ttl` operations: nothing modelled uses them.
- `RedisService` reconnecting or switching between server and fallback: the mode is fixed at start.
- Lower-casing beyond A-Z and the two other characters whose lower case holds a letter a-z: identifiers in other scripts are compared as they are.
- `resolveUsername` of the authentication service and `findAvailableUsername` of the admin seed: the same kind of search as in `GenerateUniqueUsername`.
- Presence flags that login and logout write: `Presence` covers the socket service and the heartbeat.
- Pagination options that are not integers; message histories with equal creation times.
- Linking of OAuth accounts: a provider login takes the linked user as an input.
- Role and permission tables: what they contribute to a token is an input.
- Administration of roles, permissions and tenants, notifications, calls: single-table operations.
