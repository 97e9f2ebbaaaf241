# Jamarr: verified models of its stateful parts

Jamarr is a self-hosted music server. This project models the parts of it whose behaviour is more than a
query or a request handler, and proves what they are for:

- **Refresh sessions** (`RefreshSessions`, `RefreshSessionTheorems`, `RefreshSessionRecovery`,
  `RefreshSessionService`, `RefreshSessionStatements`, `RefreshSessionDiscipline`, `RefreshSessionRefinement`).
  Rotation of refresh tokens with reuse detection, the pattern of section 4.14.2 of RFC 9700. `RefreshSessions`
  is the protocol as a state machine with one step per request handler; `RefreshSessionService` is the same
  handlers statement by statement over a mutable table, each proved to make exactly that step;
  `RefreshSessionTheorems` has the invariants over all runs, and `RefreshSessionRecovery` what becomes of a
  token that was rotated away; `RefreshSessionStatements` interleaves the single SQL statements of any number
  of requests, where `RefreshSessionDiscipline` says when the invariants still hold, and
  `RefreshSessionRefinement` ties the two grains together.
- **Playback planning and the rendered cache** (`PlaybackPlan`, `PlaybackPlanTheorems`, `PlannedOutputs`,
  `PlannedLimits`, `PlannedReasons`, `OutputSpecs`, `EncoderOptions`, `FormatOptions`, `GainOptions`,
  `RenderCache`, `RenderCacheTheorems`, `CacheFileNames`, `StreamCache`). A planner turns a track, a renderer's
  limits and a gain into an output; the output travels through a stream token and becomes a cache file name
  and encoder arguments.
- **Scrobble matching** (`ScrobbleMatcher`, `ScrobbleScan`, `ScrobbleTheorems`, `ScrobbleEvidence`,
  `TitleBrackets`, `TitleParts`, `BenignSuffix`, `BenignWords`). Scoring, acceptance and the scan for the best
  library track, and what a match says of the two records.
- **Migrations** (`MigrationSplitter`, `MigrationSplitterTheorems`, `MigrationPieces`, `MigrationRunner`,
  `MigrationHistory`). The statement splitter and the apply loop, under crashes and restarts.
- **Album runs and gain** (`AlbumGain`, `AlbumRuns`), **artwork resizes** (`ArtResize`, `ArtResizeWaiters`) and
  **batched audio analysis** (`AnalysisRunner`, `AnalysisBacklog`, `AnalysisSelection`).

`Text`, `Extremes` and `Wrappers` are shared helpers.

Where the source changes state the model does too: classes with the source's fields, methods with its loops,
an array updated in place. Every such method is tied by its contract to a function of its inputs or of the old
state, and the theorems are about those functions.

## Where the code and its words differ

The model follows the code.

- "A family has at most one live token" (app/auth.py:98) holds when each handler is one step
  (`RunKeepsInv`). The handlers open no transaction, and with every statement a step of its own it does not
  hold: `TwoLiveSessions` gives the run. There it holds over a run exactly when every rotation's insert finds
  no unrevoked session left in its family (`OneTipExactly`), and requests that are never in flight together
  for one family see to that (`ApartRequestsKeepOneTip`). One user per family, and no token coming back from
  revocation, hold under every interleaving.
- A dead family stays dead when each handler is one step. With single statements, a rotation that was decided
  before the family died still inserts its new session: `RevivesExactly` names that statement as the only one,
  `QuietDeadStaysDead` and `CommittedReturns` say which families are dead for good, and in `LogoutAllUndone` a
  logout everywhere is undone for one family.
- A token replayed after the grace window is punished as reuse only as long as nobody logs out with it: logging
  out stamps the revocation again (app/auth.py:204-211), and within the grace window after that the replay is a
  recovery (`LogoutForgivesReuse`). Without such a logout it is never rotated again (`TooLateStaysTooLate`).
- Changing the password is commented as keeping the current session (app/api/auth.py:521); the statement
  below it deletes every unrevoked session of the user.
- The planner's depth limit is not what the encoder is asked for when the limit is below 16 bits, or between
  16 and 24 bits for a deeper source: FLAC has only a 16 and a 24 bit form here, and WAV only 16, 24 and 32.
  `DepthCeiling` gives the exact condition on the inputs and `DepthCeilingFails` an input; `RateCeiling` and
  `RateCeilingFails` do so for L16 renderers that list only higher rates, `BlockCeiling` and
  `BlockCeilingFails` for FLAC block limits below 192.
- The fallback plan lists the operations that it would have taken; what it serves is the original.
- A track identifier whose title does not match scores a flat 0.6 as a penalty, which can be more than the same
  track gets for a fuzzy title (`FuzzyBelowMismatch`). The title gate then rejects it all the same.
- Stripping harmless title endings judges only the leftmost of overlapping ones, so a harmless ending inside
  one that is not harmless stays (`NestedEndingsStay`, and `NestedEndingStays` for a title); where every bracket
  is closed before another opens, none does (`NothingHarmlessStays`).
- A file that changed after it was analysed, and whose new analysis fails, keeps its old phase stamp with the
  new file hash, so the next run does not select it again (`FailedReanalysisIsNotRetried`). When the new
  analysis of one phase succeeds, the same happens to the other phases: they keep the old file's results for
  good, unless forced (`OtherPhasesKeepOldResults`, `SettledForGood`).
- With a limit on each run, as many tracks as the limit that keep failing stop every later track from being
  analysed; `ReachedExactly` says which tracks some run reaches.

## Model

| member | source | states |
|---|---|---|
| RefreshSessionService.AuthService.CreateRefreshSession | app/auth.py:49-90 | the new row is unrevoked, in the given family or else in a new one; no other row changes |
| RefreshSessionService.AuthService.GetLiveSessionForFamily | app/auth.py:93-115 | some live session of the family created last, or none exactly when the family has no live session |
| RefreshSessionService.AuthService.RevokeRefreshSession | app/auth.py:197-211 | stamps the token's row, if there is one, whether revoked already or not, and no other |
| RefreshSessionService.AuthService.RevokeFamilySessions | app/auth.py:118-133 | updating row by row stamps exactly the family's unrevoked rows; without a family nothing |
| RefreshSessionService.AuthService.RevokeAllUserSessions | app/auth.py:214-233 | updating row by row stamps exactly the user's unrevoked rows |
| RefreshSessionService.AuthService.DeleteExpired | app/auth.py:236-249 | deleting row by row removes exactly the rows whose expiry is past |
| RefreshSessionService.AuthService.Setup | app/api/auth.py:594-661 | keeps the table invariant and makes the protocol's setup step: refused for a short password or once a user exists |
| RefreshSessionService.AuthService.Login | app/api/auth.py:206-286 | keeps the table invariant and makes the protocol's login step: a new family for the user, or 401, or 403 |
| RefreshSessionService.AuthService.Logout | app/api/auth.py:289-301 | makes the logout step: stamps the presented token's row revoked, even one already revoked |
| RefreshSessionService.AuthService.RefreshHandler | app/api/auth.py:304-425 | the handler's branches, in their order, come to the protocol's refresh step for a session that the family query may return |
| RefreshSessionService.AuthService.Refresh | app/api/auth.py:304-425 | the same with the table invariant kept |
| RefreshSessionService.AuthService.LogoutAll | app/api/auth.py:428-446 | makes the logout-everywhere step and reports the number of rows revoked |
| RefreshSessionService.AuthService.ChangePassword | app/api/auth.py:492-534 | makes the password step: deletes the user's unrevoked rows, and nothing on a rejected password |
| RefreshSessionService.AuthService.PurgeExpiredSessions | app/auth.py:236-249 | makes the purge step |
| RefreshSessionTheorems.StepKeepsInv | app/api/auth.py:304-425 | every protocol step keeps: one user per family, at most one unrevoked session per family, rows in the family they were issued in |
| RefreshSessionTheorems.RunKeepsInv | app/auth.py:93-115 | so does every run, whatever the interleaving of handlers |
| RefreshSessionTheorems.RefreshSucceedsExactly | app/api/auth.py:319-397 | a refresh succeeds if and only if the row is known, its user active, the row unexpired, and it is unrevoked or was revoked within the grace window while the family still has a live session |
| RefreshSessionTheorems.RefreshPunishesExactly | app/api/auth.py:372-387 | a refresh is punished as reuse if and only if the row is known, its user active, the row unexpired, and it was revoked before the grace window while the family still has a live session |
| RefreshSessionTheorems.RefreshMovesTheTip | app/api/auth.py:353-414 | after any successful refresh, grace recovery included, the new token is the family's only unrevoked session and belongs to the same user; the replaced session was live; rows of other families are unchanged |
| RefreshSessionTheorems.SignInStartsAFamily | app/api/auth.py:249-268 | after a sign-in the new token is the only session of a new family, the user's, live exactly for the configured time; no other row changes |
| RefreshSessionTheorems.LoginSucceedsExactly | app/api/auth.py:206-286 | a login signs in if and only if the user exists, is active and the password is right; otherwise no session changes |
| RefreshSessionTheorems.SetupSucceedsExactly | app/api/auth.py:594-661 | setup signs in if and only if there is no user yet and the password is long enough; otherwise nothing changes |
| RefreshSessionTheorems.PasswordChangesExactly | app/api/auth.py:492-534 | a password change goes through if and only if the user is active, the new password long enough and the current one right; otherwise every row stays |
| RefreshSessionTheorems.RefreshDenials | app/api/auth.py:304-397 | a refresh that does not rotate is a 401, with a detail of its own only for a missing cookie |
| RefreshSessionTheorems.PurgeIsExact | app/auth.py:236-249 | purging keeps a row, as it is, if and only if it expires now or later |
| RefreshSessionTheorems.StepKeepsDead | app/api/auth.py:358-397 | no step revives a family without a live session |
| RefreshSessionTheorems.RunKeepsDead | app/api/auth.py:358-397 | nor does any run |
| RefreshSessionTheorems.DeadFamilyNeverRefreshes | app/api/auth.py:358-397 | after any continuation, every token ever issued in a dead family gets the 401 and changes nothing |
| RefreshSessionTheorems.LiveSessionRefreshes | app/api/auth.py:319-414 | the converse: a live session of an active user always rotates |
| RefreshSessionTheorems.ReuseKillsOneFamily | app/api/auth.py:372-387 | the reuse response kills the replayed token's family, which was live, and leaves every other row as it was |
| RefreshSessionTheorems.LogoutKillsItsFamily | app/api/auth.py:289-301 | logging out kills the token's family if and only if it has no other live session, and always if the token is unrevoked; no other row changes |
| RefreshSessionTheorems.UserWideRevocationIsExact | app/auth.py:214-233 | logging out everywhere, and changing the password, leave the user no unrevoked session and change no row of another user nor any already revoked |
| RefreshSessionTheorems.UserWideRevocationKills | app/auth.py:214-233 | so both kill every family of the user |
| RefreshSessionTheorems.ExpiryKills | app/auth.py:93-115 | time kills a family if and only if its live session expires by then |
| RefreshSessionTheorems.SpentStaysSpent | app/auth.py:197-211 | over every run a token once revoked or deleted never becomes unrevoked |
| RefreshSessionTheorems.TooLateStaysTooLate | app/api/auth.py:353-397 | over every run in which nobody logs out with it, a token revoked longer ago than the grace window, or deleted, is never rotated |
| RefreshSessionTheorems.LogoutForgivesReuse | app/api/auth.py:289-301 | after a logout with it, a token whose refresh would have been punished as reuse rotates its family's live session instead |
| RefreshSessionRecovery.ReplayAfterRotation | app/api/auth.py:353-414 | after a rotation, and any run that leaves the family and its user alone, presenting the replaced token rotates its successor if the rotation was at most the grace window ago, and otherwise is denied and kills the family |
| RefreshSessionRecovery.RunKeepsFamily | app/auth.py:197-249 | such a run, whatever other users and families do, keeps every unexpired row of the family and adds none |
| RefreshSessionRecovery.AfterRotation | app/api/auth.py:399-414 | a rotation stamps the replaced row with the present moment, and leaves the successor the only unrevoked row of the family |
| RefreshSessionTheorems.PurgeOnlyDropsExpired | app/auth.py:236-249 | a purge yields a table that differs only in expired rows |
| RefreshSessionTheorems.SameRefresh | app/api/auth.py:319-397 | tables that differ only in expired rows give one refresh the same answer, the same rotation, and again such tables |
| RefreshSessionTheorems.ExpiredRowsAreInvisible | app/auth.py:236-249 | and so they do over every run: equal answers to every request, except for the number that logging out everywhere reports |
| RefreshSessionTheorems.PurgeShowsInLogoutAllCount | app/api/auth.py:434-437 | that number survives a purge if and only if the user has no unrevoked row that the purge would delete |
| RefreshSessionTheorems.PurgeCanShow | app/api/auth.py:434-437 | a state in which a purge turns the count from one to none |
| RefreshSessionStatements.NextKeepsOwned | app/api/auth.py:399-414 | one statement of any handler keeps one owner per family |
| RefreshSessionStatements.NextKeepsSpent | app/auth.py:197-211 | and brings no revoked or deleted token back |
| RefreshSessionStatements.OneUserPerFamily | app/auth.py:49-90 | under every interleaving of single statements, all sessions of a family are one user's |
| RefreshSessionStatements.RevocationIsPermanent | app/auth.py:197-211 | under every interleaving of single statements, revocation is never undone |
| RefreshSessionStatements.TwoLiveSessions | app/api/auth.py:353-414 | a concrete interleaving of two refreshes of one token that leaves its family two live sessions; the next rows say when this cannot be |
| RefreshSessionRefinement.AloneIsAtomic | app/api/auth.py:304-425 | from any state, a refresh whose statements run without interruption comes to exactly the handler taken as one step |
| RefreshSessionDiscipline.InsertKeepsOneTip | app/api/auth.py:399-414 | statement by statement, a rotation's insert keeps one unrevoked session per family if and only if its row has no family or the family has no unrevoked session at that moment |
| RefreshSessionDiscipline.OneTipExactly | app/auth.py:93-115 | over a whole interleaving every family has at most one unrevoked session throughout if and only if that is so at every such insert |
| RefreshSessionDiscipline.ApartRequestsKeepOneTip | app/api/auth.py:304-425 | which it is whenever no two requests in flight are about one family, however the statements of all others interleave |
| RefreshSessionDiscipline.RevivesExactly | app/api/auth.py:399-414 | a single statement revives a dead family if and only if it is the insert of a rotation in that family, in time before the new session's expiry |
| RefreshSessionDiscipline.QuietDeadStaysDead | app/api/auth.py:358-397 | a dead family in which no request in flight has decided to rotate, or only too long ago, stays dead under every interleaving |
| RefreshSessionDiscipline.CommittedReturns | app/api/auth.py:399-414 | and one in which some request has can be revived from any such moment |
| RefreshSessionDiscipline.LogoutAllUndone | app/auth.py:214-233 | a concrete interleaving in which a logout everywhere is undone for a family |
| PlaybackPlan.PlanPlayback | app/services/playback_plan.py:725-912 | the accumulating planner computes the six-case plan that the theorems below are about |
| PlaybackPlan.FindLimits | app/services/playback_plan.py:742-755 | the narrowed rate and depth limits are the tightest of the renderer's, the lossless profile's and the DSD cap |
| PlaybackPlan.FindChanges | app/services/playback_plan.py:796-818 | the target, operations and reasons; operations arise exactly when the samples must change |
| PlaybackPlan.Reencode | app/services/playback_plan.py:859-912 | the preference loop takes the first accepted lossless format, and else the last resort |
| PlaybackPlan.BlockSizeUnder | app/services/playback_plan.py:718-722 | the greatest standard block size within the limit, or the smallest there is |
| PlaybackPlan.FirstAccepted | app/services/playback_plan.py:859-866 | a listed format that the renderer accepts, or none exactly when it accepts none of them |
| PlaybackPlan.L16Rate | app/services/playback_plan.py:870-881 | the greatest listed rate within the target, else the least listed; above the target only if every listed rate is |
| PlaybackPlan.ListedRate | app/services/playback_plan.py:877-878 | picking from the sorted rates gives that rate |
| PlaybackPlanTheorems.L16MimeFamily | app/services/playback_plan.py:887-889 | the rate and channel parameters leave the MIME type in the L16 family |
| PlaybackPlanTheorems.EncodedMimeFamily | app/services/playback_plan.py:887-889 | a decode's MIME type belongs to the family it was chosen for |
| PlaybackPlanTheorems.WhichPlan | app/services/playback_plan.py:785-912 | for each kind of plan, the if-and-only-if condition under which it arises; in particular lossy only by an accepted choice or with no lossless family accepted, and the fallback only when lossy is off or unaccepted too |
| PlaybackPlanTheorems.OutputIsAccepted | app/services/playback_plan.py:785-912 | every plan but the fallback has a MIME type whose family the renderer accepts |
| PlannedLimits.CeilingsAreLeast | app/services/playback_plan.py:742-794 | each ceiling is the least of the limits that apply, out of the renderer's, 48000 Hz and 24 or 16 bits for a lossless quality, and 176400 Hz for DSD, and there is none where none applies |
| PlannedLimits.ServableExactly | app/services/playback_plan.py:820-846 | the source's bytes will do if and only if no gain applies, rate, depth and channels are within all these limits, codec and blocks are accepted, and so is the container or native FLAC |
| PlannedLimits.RateIsWithinLimits | app/services/playback_plan.py:742-902 | the output rate is within all limits and the source's rate if and only if no L16 list rules that out; a source within them keeps its rate |
| PlannedLimits.DepthIsWithinLimits | app/services/playback_plan.py:742-902 | 16 and 24 bit qualities and limits are kept; without a limit no depth up to 24 bits is lost; 16 and 24 bits are not padded |
| PlannedLimits.ChosenExactly | app/services/playback_plan.py:859-866 | FLAC is chosen before WAV unless the renderer prefers WAV, L16 only where neither is accepted, and nothing only where none of the three is |
| PlannedLimits.LossyOutput | app/services/playback_plan.py:772-792 | a lossy plan is at 48 kHz in mono or stereo, in the format chosen and accepted, else in MP3 if that is accepted, else in Opus |
| PlannedLimits.RequestGoesFirst | app/services/playback_plan.py:745-746 | the requested quality goes before the renderer's setting, a request for the original included |
| PlannedLimits.HighNames | app/services/stream_profiles.py:126-145 | the names of the 24-bit quality |
| PlannedLimits.NormalNames | app/services/stream_profiles.py:126-145 | the names of the 16-bit quality |
| PlannedLimits.LossyNames | app/services/stream_profiles.py:126-145 | the names of the lossy qualities |
| PlannedLimits.SpellingDoesNotCount | app/services/stream_profiles.py:140-141 | blanks around a quality's name and its case do not count |
| PlannedReasons.PlansTellTheirReasons | app/services/playback_plan.py:757-912 | every plan names exactly the limits that the source exceeds, a gain, a choice not honoured, what the renderer does not take, and what came of it |
| PlannedOutputs.TargetRateIsGreatest | app/services/playback_plan.py:704-708 | the target is the greatest of 1, 2, 4 and 8 times the base rate within the limit, and else the limit |
| PlannedOutputs.FaithfulShape | app/services/playback_plan.py:829-902 | where no lossy choice is honoured and the bytes or some lossless format will do, the plan is the first accepted decode, or sends samples that needed no change |
| PlannedOutputs.FaithfulExactly | app/services/playback_plan.py:785-912 | those inputs are exactly the ones with a plan that is neither lossy nor the fallback |
| PlannedOutputs.RateCeiling | app/services/playback_plan.py:796-884 | the output rate is within the ceiling and the source's rate if and only if the bytes will do, or the first accepted format is not L16, or the renderer lists no L16 rates or one within the bound |
| PlannedOutputs.RateCeilingFails | app/services/playback_plan.py:870-881 | an input for which it is not: a renderer limited to 48 kHz that takes L16 only, at 96 kHz |
| PlannedOutputs.ChannelCeiling | app/services/playback_plan.py:809-815 | the output has the lesser of the source's channels and the renderer's limit |
| PlannedOutputs.DepthCeiling | app/services/playback_plan.py:803-886 | the depth a lossless source goes out with is within the ceiling if and only if the bytes will do, or the ceiling is 16 or at least 24 bits, or it is between them and the source has at most 16 bits or only L16 is accepted |
| PlannedOutputs.DepthCeilingFails | app/services/playback_plan.py:859-886 | an input for which it is not: 24-bit FLAC for a limit of 20 bits |
| PlannedOutputs.BlockCeiling | app/services/playback_plan.py:820-901 | under any FLAC block limit, encoded blocks have the greatest standard size within it, and are within it if and only if it is at least 192; source bytes are sent only with fixed blocks within it and a codec the renderer decodes |
| PlannedOutputs.BlockCeilingFails | app/services/playback_plan.py:718-722 | an input for which they are not: a limit of 100, and blocks of 192 |
| PlannedOutputs.NoNeedlessChange | app/services/playback_plan.py:796-902 | where the samples are encoded, they are resampled or mixed down exactly when a ceiling or the L16 rate list demands it, and otherwise keep the source's rate, channels and depth up to 24 bits |
| PlannedOutputs.PlansTellTheirOperations | app/services/playback_plan.py:757-912 | the operations listed by a plan agree with it: lossy encode, remux, resample and downmix appear exactly when done, normalise exactly when a gain was asked for, nothing exactly for a compatible original |
| OutputSpecs.BuildCacheKey | app/services/playback_plan.py:570-584 | appending part by part gives the dash-joined key fields |
| OutputSpecs.BuildFfmpegArgs | app/services/playback_plan.py:592-622 | appending part by part gives the encoder arguments; an unknown profile is a failed lookup |
| EncoderOptions.RateIsTold | app/services/playback_plan.py:603-604 | read back option by option, the encoder arguments ask for the spec's rate exactly when it is to change |
| EncoderOptions.ChannelsAreTold | app/services/playback_plan.py:605-606 | and for its channels exactly when they are |
| EncoderOptions.DepthAndBlocksAreTold | app/services/playback_plan.py:607-622 | and for its encoded depth and its FLAC block size |
| EncoderOptions.LossyProfilesAreTold | app/services/stream_profiles.py:85-122 | read back, the lossy profiles ask for MP3 at 320 kbit/s and Opus at 128 kbit/s, both at 48 kHz |
| EncoderOptions.RemuxIsTold | app/services/playback_plan.py:600-602 | a remux copies the codec into a FLAC container and asks for no rate |
| FormatOptions.FormatIsTold | app/services/playback_plan.py:607-622 | a decode asks for its format's container, and for 32 bit wide FLAC samples exactly for depths over 16 |
| FormatOptions.SampleFormatsAreTold | app/api/stream.py:47-59 | so do the lossless profiles and a normalized original, which leaves an unknown depth open |
| GainOptions.FlacProfilesAreTold | app/services/stream_profiles.py:37-84 | the lossless profiles ask for FLAC at 48 kHz with 24 and 16 bits |
| GainOptions.OriginalIsTold | app/api/stream.py:47-59 | a normalized original is FLAC at the source's rate, with 24 bits exactly for sources deeper than 16 |
| GainOptions.VolumeIsTold | app/api/stream.py:62-84 | the encoder is told to change the volume by exactly the gain asked for, and by none where none is |
| GainOptions.GainReads | app/api/stream.py:71-72 | the printed gain reads back as the gain: its sign, and its thousandths with the point before the last three digits |
| PlannedOutputs.EncoderIsToldThePlan | app/services/playback_plan.py:592-622 | so the arguments of a planned decode ask for the planned rate, channels, depth and block size, or leave out what the source already has |
| OutputSpecs.ReadBackIsProjection | app/services/playback_plan.py:534-568 | a spec written into claims can always be read back, and doing it twice equals doing it once |
| OutputSpecs.RoundTripExactly | app/services/playback_plan.py:534-568 | the spec itself comes back if and only if it names its MIME type or needs none, and its rate and channels are there to be applied |
| OutputSpecs.ServedSurvivesExactly | app/services/playback_plan.py:534-622 | format, MIME type, extension, cache key and encoder arguments survive the token if and only if the MIME type is named or needs no name, and an original carries no encoding fields |
| PlannedOutputs.ServedAsPlanned | app/services/playback_plan.py:534-622 | for every output the planner makes they survive, and it is the original or a rendering with a proper key and arguments |
| RenderCache.GainKeyInjective | app/api/stream.py:62-84 | with dots and dashes replaced, the gain text still determines the mode and the printed gain |
| RenderCacheTheorems.FieldsDetermine | app/services/playback_plan.py:570-622 | equal key fields mean equal format and encoder arguments |
| RenderCacheTheorems.SuffixIsUnique | app/api/stream.py:307-311 | the gain suffix can be told from the key before it |
| RenderCacheTheorems.PlannedKeyDetermines | app/api/stream.py:307-318 | planned outputs with equal keys, gain suffix included, have equal encoder arguments, volume filter and extension |
| RenderCacheTheorems.SameFileSameRendering | app/services/stream_profiles.py:232-276 | any two requests for a track and content, from the three places that name files, which share a cache file want the same rendering |
| CacheFileNames.TracksNeverShare | app/services/stream_profiles.py:261-263 | two tracks never share a cache file |
| CacheFileNames.WholeNameDetermines | app/services/stream_profiles.py:386-397 | equal whole names mean one track, one content fingerprint, be it a hash or a time and a size, and one rendering |
| PlannedOutputs.SharedFileIsRight | app/api/stream.py:272-342 | two planned outputs read back from their tokens that meet in one cache file are each the rendering that was planned |
| StreamCache.Cache.Cleanup | app/services/stream_profiles.py:279-313 | runs exactly if forced or due; leaves no file past the age limit and at most the byte limit; what it evicts for size is the shortest prefix, oldest first, that makes the rest fit |
| StreamCache.Cache.DropExpired | app/services/stream_profiles.py:289-300 | removes exactly the files older than the cutoff |
| StreamCache.Cache.EvictInOrder | app/services/stream_profiles.py:305-310 | the running total stops the eviction at the shortest sufficient prefix |
| StreamCache.ByAgeSorts | app/services/stream_profiles.py:305-305 | sorting by age keeps the files and their total |
| ScrobbleMatcher.ScoreCandidate | app/matching/__init__.py:355-474 | the step-by-step score, reasons and ranks are those of the evidence |
| ScrobbleMatcher.ReasonsApply | app/matching/__init__.py:366-472 | a reason is listed if and only if its evidence is there |
| ScrobbleScan.DedupeCandidates | app/matching/matcher.py:424-431 | keeps the candidates whose id has not occurred before |
| ScrobbleTheorems.DedupeKeepsFirsts | app/matching/matcher.py:424-431 | a record is kept if and only if it is the first with its id |
| ScrobbleTheorems.DedupeKeepsIds | app/matching/matcher.py:424-431 | every id is kept, each once |
| ScrobbleScan.FindRivals | app/matching/matcher.py:435-452 | the two flags, one of which ends the loop early, together say whether any candidate is a rival to compilations |
| ScrobbleScan.NearTieIsTie | app/matching/matcher.py:486-486 | on the score grid the 0.01 tolerance means equality |
| ScrobbleScan.BreaksTie | app/matching/matcher.py:486-510 | among equal scores the cascade of tie-breaks is the lexicographic order |
| ScrobbleScan.FindBest | app/matching/matcher.py:454-510 | the scan returns the first candidate greatest by score, exact title, method, album artist and release type among the eligible, and none exactly if none is eligible |
| ScrobbleScan.FindMostSimilar | app/matching/matcher.py:512-529 | the fallback returns the first of the most similar titles past the threshold |
| ScrobbleScan.MatchScrobble | app/matching/matcher.py:402-539 | the whole match: nothing for a skipped artist, else the best eligible, else the most similar title if allowed |
| ScrobbleTheorems.MatchIsUnique | app/matching/matcher.py:402-539 | that description admits exactly one result |
| ScrobbleEvidence.MatchIsJustified | app/matching/matcher.py:402-539 | whatever is returned is one of the candidates; a primary match has the scrobble's title, but for one article each, or one at least 80 alike whose recording or base title agrees; a fallback has one as alike as the threshold asks |
| ScrobbleEvidence.TitlesEqualExactly | app/matching/__init__.py:402-412 | titles count as equal if and only if both are there and taking at most one article off each leaves the same words |
| ScrobbleEvidence.PlainTitles | app/matching/__init__.py:402-412 | which without articles is plain equality |
| ScrobbleEvidence.SharesArtistExactly | app/matching/__init__.py:395-400 | the artist counts as equal if and only if some name is one of the scrobble's artists and one of the track's |
| ScrobbleEvidence.ReasonsAreTrue | app/matching/__init__.py:355-474 | each reason is listed if and only if what it says of the fields of the two records is so |
| ScrobbleEvidence.ReasonsAccountForTheScore | app/matching/__init__.py:355-474 | the score can be told from the reasons alone: the sum of what each is worth, within 0 and 1, with the caps that the fuzzy and mismatch reasons name |
| ScrobbleEvidence.AcceptedExactly | app/matching/__init__.py:491-501 | a candidate passes the gates if and only if its title matches, with the threshold for fuzzy ones, and identifiers or names give one of four grounds at their scores |
| ScrobbleEvidence.EligibleExactly | app/matching/matcher.py:436-462 | compilations drop out if and only if some candidate off them has the scrobble's very title and artist |
| ScrobbleEvidence.WinnerStandsHighest | app/matching/matcher.py:482-510 | told from score and reasons alone, the match comes lexicographically before every eligible candidate, strictly before those listed earlier |
| ScrobbleTheorems.OrderOnlyBreaksTies | app/matching/matcher.py:454-510 | the same candidates in another order give a match of the same rank |
| ScrobbleTheorems.EligibleIsGood | app/matching/__init__.py:436-501 | a primary match has an exact or fuzzy title and at least 0.7; at least 0.85 if fuzzy or by track identifier; at least 0.9 if fuzzy for an artist with 50 scrobbles; and a fuzzy one at most 0.95 |
| ScrobbleTheorems.IdentifiedTitleScore | app/matching/__init__.py:355-474 | an identified track with the exact title scores at least 0.85 whatever else is wrong |
| ScrobbleTheorems.PerfectTitleWins | app/matching/matcher.py:464-510 | an eligible exact title at 1.0 is never beaten by a fuzzy one, whatever the metadata |
| ScrobbleTheorems.ScoreIsMonotone | app/matching/__init__.py:355-474 | among title matches, more evidence never lowers the score, caps and penalties included |
| ScrobbleTheorems.MoreEvidenceNeverHurts | app/matching/matcher.py:464-510 | so a candidate is never beaten by a title match whose evidence it has, and passes every gate that one passes |
| ScrobbleTheorems.FuzzyBelowMismatch | app/matching/__init__.py:443-472 | without the title match that fails: an identified track with a fuzzy title scores below one with no title match if and only if its other evidence leaves less than 0.6 |
| TitleBrackets.RemoveBrackets | app/matching/__init__.py:270-275 | the substitution loop ends, leaves what one scan with a stack of open brackets leaves, and no opening bracket before a closing one |
| TitleBrackets.DropUnclosed | app/matching/__init__.py:276-276 | nothing from the first opening bracket on is left, nor blanks before it; text without one is unchanged |
| TitleBrackets.BaseTitle | app/matching/__init__.py:261-280 | the base title is the normalisation of what is outside the brackets, or empty |
| TitleBrackets.PassKeepsScan | app/matching/__init__.py:271-271 | replacing the innermost groups does not change what the scan finds |
| TitleBrackets.PairShrinks | app/matching/__init__.py:271-275 | while an opening bracket precedes a closing one, a pass makes the text shorter |
| TitleParts.ScanLeavesTheOutside | app/matching/__init__.py:270-275 | a title of text and closed brackets, nested to any depth, comes down to the text outside them, with a blank for each outermost group |
| TitleParts.UnclosedIsDropped | app/matching/__init__.py:270-276 | and with a bracket that is never closed after it, the same without the blanks at its end |
| BenignSuffix.FindsTheLeftmost | app/matching/__init__.py:60-62 | the search finds a bracketed ending whenever there is one, and no ending starts further left |
| BenignSuffix.FoundEndsSo | app/matching/__init__.py:60-62 | what it finds is such an ending |
| BenignSuffix.StripBenignSuffix | app/matching/__init__.py:54-73 | the loop ends and removes harmless endings one after another, unless nothing would be left |
| BenignSuffix.StripsOnce | app/matching/__init__.py:54-73 | stripping twice is stripping once, also for a title of nothing but harmless endings |
| BenignSuffix.FoundIsNotBenign | app/matching/__init__.py:61-72 | the ending that the search finds in what is left is not harmless |
| BenignSuffix.NestedEndingsStay | app/matching/__init__.py:60-72 | some ending of what is left is harmless if and only if the leftmost one is not and has a later opening bracket in it from which on the text is harmless |
| BenignSuffix.NestedEndingStays | app/matching/__init__.py:21-26 | a title for which that happens under the source's own word list |
| BenignWords.HarmlessExactly | app/matching/__init__.py:66-70 | bracketed text is harmless if and only if it has a word character and every maximal stretch of them is a number or on the list |
| BenignWords.WordsAreStretches | app/matching/__init__.py:66-66 | the words of a text are exactly its maximal stretches of word characters |
| BenignSuffix.NothingHarmlessStays | app/matching/__init__.py:54-73 | no harmless ending is left of a title in which between any two opening brackets is a closing one |
| BenignSuffix.StrippedEndsHarmlesslyExactly | app/matching/__init__.py:54-73 | the stripped title ends harmlessly if and only if what is left does, or nothing was left and the title is returned as it was |
| MigrationSplitter.SplitStatements | migrations/apply_migrations.py:47-98 | the scanner, with its look-ahead, returns the stripped executable stretches between the cuts |
| MigrationSplitterTheorems.SegmentsJoin | migrations/apply_migrations.py:47-98 | the stretches joined with semicolons are the file |
| MigrationSplitterTheorems.CutsAreExact | migrations/apply_migrations.py:47-98 | a position is between two stretches if and only if it is a semicolon outside dollar-quoted blocks and line comments |
| MigrationSplitterTheorems.SegmentsAreUncut | migrations/apply_migrations.py:47-98 | every stretch, read on its own, has no cut |
| MigrationSplitterTheorems.StatementsAreStable | migrations/apply_migrations.py:37-98 | splitting a returned statement returns just that statement |
| MigrationSplitterTheorems.OnlyIdleTextIsDropped | migrations/apply_migrations.py:37-44 | a stretch is returned if and only if something in it can be executed |
| MigrationPieces.ExecutableExactly | migrations/apply_migrations.py:37-44 | a text is executable if and only if one of its lines is not blank and does not start with a comment |
| MigrationPieces.LineExecutesExactly | migrations/apply_migrations.py:41-43 | a line is so if and only if it has a character that is no blank and no comment starts at the first |
| MigrationPieces.SegmentIsReturnedExactly | migrations/apply_migrations.py:47-98 | a stretch of the file is returned if and only if one of its lines is executable |
| MigrationPieces.LineInFront | migrations/apply_migrations.py:37-44 | a comment or blank line in front hides no statement |
| MigrationPieces.PiecesAreCutRightly | migrations/apply_migrations.py:47-98 | a file composed of plain text, dollar-quoted blocks and comment lines is cut at the semicolons of its plain text and nowhere else |
| MigrationRunner.Database.ApplyOne | migrations/apply_migrations.py:202-210 | a migration and its record are committed together or not at all, and never for a recorded version |
| MigrationRunner.Database.Baseline | migrations/apply_migrations.py:166-181 | a completed baseline has recorded every version |
| MigrationRunner.Database.Replay | migrations/apply_migrations.py:183-210 | from a committed prefix of the history the loop commits a prefix at least as long, and stops early only at a migration that fails or repeats a version it has committed itself |
| MigrationRunner.Database.ApplyMigrations | migrations/apply_migrations.py:153-210 | one run over any files, crashing anywhere: the schema is the fold of a prefix of the history, the non-empty migrations in order without later repetitions of a version, exactly that prefix is recorded and committed, and a completed run has all of it |
| MigrationRunner.RunWithRestarts | migrations/apply_migrations.py:153-210 | so it is after any number of crashes and restarts; a run stopped by a repeated version has made progress, the next ones skip it, and the last completes the history or stops at a migration of it that fails; without repeated versions none is stopped so |
| MigrationRunner.NonEmptyMembers | migrations/apply_migrations.py:196-199 | a file is non-empty exactly when it has a statement |
| MigrationRunner.HistoryMembers | migrations/apply_migrations.py:183-199 | the history holds exactly the first non-empty file of every version |
| MigrationRunner.NoRepeatsNothingDropped | migrations/apply_migrations.py:183-199 | with distinct versions it holds all non-empty files, in order |
| MigrationRunner.PlaceInHistory | migrations/apply_migrations.py:183-199 | the first non-empty file of its version is recorded exactly when the committed prefix reaches it, a later one as soon as what is before it is committed |
| MigrationHistory.HistoryIsOneScript | migrations/apply_migrations.py:202-210 | applying a history is running all statements of its files in one go, in order, up to the first that fails |
| MigrationHistory.FirstThenRest | migrations/apply_migrations.py:204-205 | running statements is running the first on the schema and the rest on what it made |
| MigrationHistory.RecordTells | migrations/apply_migrations.py:206-210 | the record holds exactly the history's versions, each with its file's checksum |
| AlbumGain.AlbumSequenceTrackIds | app/audio_normalization.py:56-91 | the two scans find the ends of the run around an index and collect its ids |
| AlbumGain.RunsPartition | app/audio_normalization.py:56-91 | every index in the run found from an index finds the same run and the same ids |
| AlbumGain.RunIsMaximal | app/audio_normalization.py:56-104 | a run is linked throughout, and neither end is linked to what lies beyond it |
| AlbumRuns.LinkedExactly | app/audio_normalization.py:45-104 | neighbours in the queue are linked if and only if both are entries with one album name and one artist, and their track numbers are one apart, one is missing, or their known discs differ |
| AlbumRuns.RunIsOneAlbum | app/audio_normalization.py:45-91 | all entries of a run are of one album by one artist |
| AlbumRuns.IdsAreTheRuns | app/audio_normalization.py:86-91 | the ids found are exactly those of the run's entries |
| AlbumRuns.AlbumGainIsUsedExactly | app/api/player.py:275-292 | the album gain is used if and only if the entry is completely analysed with a stored album gain, and another entry of its run has an id |
| AlbumGain.ApplyGains | app/api/player.py:275-326 | the pass over the queue, which reads runs from the entries it is writing to, gives each entry the gain that the queue before the pass calls for |
| AlbumGain.AlbumGainIsPeakSafe | app/api/player.py:287-309 | wherever the stored album gain is used, the applied one boosts at most 6 dB, and lifts no measured peak of the run above -1 dBTP |
| AlbumGain.AlbumGainIsGreatest | app/audio_normalization.py:32-42 | it is the stored gain, or 6 dB, or lifts some measured peak of the run to exactly -1 dBTP |
| AlbumGain.TrackGainIsPeakSafe | app/audio_normalization.py:9-29 | a track gain is the greatest within 6 dB, -16 LUFS and -1 dBTP |
| AlbumGain.RunKeepsItsBalance | app/api/player.py:287-309 | tracks of a run with one stored album gain get one applied gain |
| ArtResize.Resizer.EnsureResized | app/media/art.py:226-240 | a request joins the task in flight for its key, or starts one if that is done or absent |
| ArtResize.Resizer.RunDoneCallback | app/media/art.py:219-223 | the callback removes the entry if and only if it is still this task's |
| ArtResize.NextKeepsTasks | app/media/art.py:219-241 | every event of a process keeps its table and tasks consistent |
| ArtResize.NextKeepsFiles | app/media/art.py:170-201 | and keeps published files whole and its staging files where they belong |
| ArtResize.OthersKeepFiles | app/media/art.py:170-201 | it does so for every other process over the same directory too |
| ArtResize.StepKeepsOk | app/media/art.py:170-241 | every step of any number of processes, which begin and end at any moment, keeps all of that |
| ArtResize.OneUnfinishedResize | app/media/art.py:204-241 | at every point of every interleaving of the processes, each has at most one unfinished task for a key, the one in flight |
| ArtResize.LateCallbackIsHarmless | app/media/art.py:219-223 | a late callback removes no newer task's entry and touches no other key |
| ArtResize.NothingLeaks | app/media/art.py:219-223 | once callbacks have run, only unfinished tasks are in the table |
| ArtResize.PublishedIsWhole | app/media/art.py:170-201 | whatever the processes do and wherever they end, a published path is absent or whole |
| ArtResize.FinishedTasksTell | app/media/art.py:170-201 | a success has published, a finished task has left no staging file, and a writing one's is there and as whole as it has written it |
| ArtResize.ProcessesKeepApart | app/media/art.py:204-205 | a step of one process changes nothing in another's table, tasks or waiters |
| ArtResize.WaitersShareAndDoNotInterfere | app/media/art.py:226-241 | requests of a process for a key share its task, and a cancelled waiter disturbs neither it nor the others |
| ArtResizeWaiters.RequestWaitsOnItsOwnKey | app/media/art.py:226-241 | over every interleaving, a request waits on an unfinished resize of its own key, the one in flight; one is started if and only if the process has none unfinished, and nothing else changes |
| ArtResizeWaiters.KeepsWaiting | app/media/art.py:241-241 | it keeps waiting on that one resize, whatever else happens, until it goes on, is cancelled or its process ends |
| ArtResizeWaiters.ResumesAfterItsOwnResize | app/media/art.py:226-241 | when it goes on, that resize of its own key is finished, and if it succeeded the cover is published and whole |
| ArtResizeWaiters.PublishedStays | app/media/art.py:170-201 | what is published stays published |
| AnalysisRunner.Runner.FetchCandidates | app/scanner/audio_analysis.py:752-771 | returns ids selected by the filters and above the cursor, in ascending order, as many as a batch and what remains allow and as there are, each lower than every selected id above the cursor that is left out |
| AnalysisRunner.Runner.StoreBatch | app/scanner/audio_analysis.py:538-557 | stores each result in order and counts it as analysed or as an error |
| AnalysisRunner.Runner.Run | app/scanner/audio_analysis.py:472-560 | processes exactly the lowest-id candidates up to the limit, each once and in order, although its writes change the query; analysed and errors add up to selected; a dry run changes nothing |
| AnalysisRunner.CursorSelectsTheRest | app/scanner/audio_analysis.py:752-810 | with the cursor behind the first k candidates, the query selects the rest of the original ones, whatever has been stored |
| AnalysisSelection.ForcedSelectsExactly | app/scanner/audio_analysis.py:773-810 | a forced run selects exactly the tracks of its scope, and a later phase those with a stamp of the first |
| AnalysisSelection.UnforcedLeavesOutTheSettled | app/scanner/audio_analysis.py:773-810 | an unforced one leaves out exactly those with a current row and a stamp of the phase |
| AnalysisSelection.ProcessedExactly | app/scanner/audio_analysis.py:737-771 | a run processes a track if and only if it is selected and fewer selected ones than the limit have lower ids |
| AnalysisSelection.OutOfScopeStays | app/scanner/audio_analysis.py:799-810 | over all runs, forced or not, the row of a track outside their scopes stays as it was |
| AnalysisSelection.StampsStay | app/scanner/audio_analysis.py:1025-1210 | over all runs no stamp is ever taken away |
| AnalysisRunner.StoredRow | app/scanner/audio_analysis.py:1025-1210 | a stored result or error replaces hash and version, and only a result adds the phase's stamp |
| AnalysisRunner.NextRunSelects | app/scanner/audio_analysis.py:773-810 | exactly which tracks the next unforced run of any phase selects after this run stored the results of any phase |
| AnalysisRunner.NextRunIsFailedOrLater | app/scanner/audio_analysis.py:773-810 | they all failed in this run or were beyond it |
| AnalysisRunner.FailedReanalysisIsNotRetried | app/scanner/audio_analysis.py:1188-1210 | a track with an earlier stamp whose new analysis fails is not among them |
| AnalysisRunner.OtherPhasesKeepOldResults | app/scanner/audio_analysis.py:773-810 | once any phase of a changed file has been stored, successfully or not, no phase with an old stamp is due any more, although each was before if phase 1 had a stamp |
| AnalysisRunner.SettledForGood | app/scanner/audio_analysis.py:773-810 | and it stays so over all later runs of all phases while the file does not change |
| AnalysisBacklog.DueAfter | app/scanner/audio_analysis.py:773-810 | after an unforced run, due is exactly what was due and not processed, or failed without a stamp |
| AnalysisBacklog.BlockedRunChangesNothing | app/scanner/audio_analysis.py:773-810 | a run whose whole quota fails without stamps leaves the same tracks due |
| AnalysisBacklog.BatchByRank | app/scanner/audio_analysis.py:737-750 | a due track is processed if and only if fewer due tracks than the limit have lower ids |
| AnalysisBacklog.Reached | app/scanner/audio_analysis.py:472-560 | a due track with fewer such failing tracks below it than the limit is processed, after at most as many runs as tracks are due below it |
| AnalysisBacklog.NeverReached | app/scanner/audio_analysis.py:472-560 | one with as many as the limit stays due and is never processed, however many runs there are |
| AnalysisBacklog.ReachedExactly | app/scanner/audio_analysis.py:472-560 | so over all runs a due track is reached if and only if fewer lower due tracks than the limit keep failing without a stamp |

## Left out

- RefreshSessionTheorems.RunKeepsInv: takes a handler as one step; what holds with each statement as a step is in `RefreshSessionDiscipline`.
- RefreshSessionTheorems.ExpiredRowsAreInvisible: leaves out the count reported by logging out everywhere, which a purge can change; `PurgeShowsInLogoutAllCount` says exactly when.
- RefreshSessionTheorems.PurgeShowsInLogoutAllCount: is about a purge and a logout at one moment.
- RefreshSessionRecovery.ReplayAfterRotation: is about runs in which nothing else happens to the family, and nobody locks its user out or revokes all the user's sessions; those ends are in `LogoutKillsItsFamily`, `UserWideRevocationKills` and `ReuseKillsOneFamily`.
- RefreshSessionRefinement.AloneIsAtomic: is about a refresh that presents a token; without one there is no statement.
- MigrationPieces.PiecesAreCutRightly: is about files whose plain text does not end in a single dollar or dash next to a delimiter; `CutsAreExact` is about all files.
- MigrationRunner.Database.ApplyMigrations: claims nothing about crashes while a baseline is being recorded, because its inserts are separate transactions.
- PlannedOutputs.RateCeiling: is about lossless outputs; a lossy plan always has 48 kHz and at most two channels.
- PlannedOutputs.DepthCeiling: is about lossless sources, for which the planner keeps a depth.
- PlannedOutputs.PlansTellTheirOperations: counts normalisation for the fallback too, which lists it although the original is served.
- CacheFileNames.WholeNameDetermines: takes a stored content hash in its hexadecimal form; a hash stored as other text, which the schema's byte column rules out, is not modelled.
- StreamCache.Cache.Cleanup: takes every deletion to succeed; in the source a file that is already gone is passed over, and any other failure ends the cleanup.
- ScrobbleTheorems.PerfectTitleWins: is about the primary scan; the fuzzy fallback knows no scores.
- AnalysisRunner.Runner.Run: covers the selection and storing of one phase; the album ReplayGain update after phase 2 and an error with an empty text, which the source would take for a result, are not modelled.
- ArtResize.FinishedTasksTell: takes the removal of a staging file after a failure to succeed, as the source ignores its failure.
- Tokens are opaque fresh values and the hash is injective; password hashing, signing, cookies, rate limits and logging are not modelled.
- The application's clock and the database's are one; a handler taken as one step reads it once.
- Token claims are a record with numbers as numbers; claims with numbers as text, which the reader would also accept, are never written.
- Labels and the wording of reasons are not modelled: a reason is a constructor with the numbers it quotes.
- Scores are in twentieths and loudness levels are exact reals; printed gains have three decimals, with a possible negative zero. Floating-point noise is not modelled.
- Name and title normalisation, the string-similarity ratios, and the collection of candidates from the indexes are parameters.
- Reasons are tested as list members, where the source looks for substrings; no reason's name contains another that is looked for.
- Gain modes are track and album only, the two that the player writes.
- BenignSuffix.StripBenignSuffix: takes the judgement of an ending as a parameter; `IsHarmless` is the source's, with lower-casing of ASCII letters only.
- AnalysisBacklog.ReachedExactly: takes each track's analysis to succeed always or never.
- SQL string literals are not lexed by the splitter, so nothing is claimed about quotes; a carriage return with a line feed counts as two line breaks.
- Artwork: deleting published files, cancelling tasks at shutdown, image sizes and encoding are not modelled.
- The album peak that the streaming endpoint computes from complete analyses only (app/services/audio_streaming.py:204-219) is not modelled; the player's is.
- Analysis: no other writer changes tracks or rows during a run.
- Parsing of renderer advertisements and of overrides, adaptive quality steps, file probing, the transcoding locks, scheduling, recommendation, library and search queries are not modelled.
