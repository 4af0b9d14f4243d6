# A model of Banjax

Banjax is a filter plugin for Apache Traffic Server that keeps floods of requests away from web servers: it white-lists,
rate-limits, challenges and bans client addresses. This project models the parts whose behaviour is decided by its own
code and proves what they promise, for all inputs and over whole runs.

| files | part | main results |
|---|---|---|
| Bytes, Base64, CookieJar, PassToken, ZeroCount, PassCheck, ChallengePages, Passage | the pass token from issue to check, the solver page, the captcha exchange | `Base64.RoundTrip`, `CookieJar.ConsumedExactly`, `PassCheck.PassesExactly`, `Passage.CookieJudged`, `Passage.SolvedPagePasses`, `ChallengePages.CaptchaExchange` |
| Gif, GifDecoder, GifRoundTrip | the captcha's GIF writer against an independent GIF89a reader | `GifRoundTrip.GifReadsBack` |
| IpDb, RateLimit, RegexManager, RateRuns | the decaying hit rate per address and rule, under lost updates | `RegexManager.MatchedExactly`, `RateRuns.SpacedNeverBanned`, `RateRuns.BansAtExactly` |
| Swabber, FailureCount | ban requests with a grace period, the challenger's failure counter | `Swabber.GraceRespected`, `FailureCount.BanNeedsFailures`, `FailureCount.BannedOnExactly` |
| WhiteList, MagicWords, Challenger, Pipeline, Isolation, Verdicts | white lists, protected pages, challenge selection, the filter loop | `Verdicts.ServedExactly`, `Isolation.OthersDoNotMatter`, `Isolation.DeniedUntilReported`, `Challenger.TwiceIsOnce`, `WhiteList.MatchIsBlock` |
| Traces, WholeRuns | runs of the pipeline as runs of its parts | `WholeRuns.RunIsParts`, `WholeRuns.RateInRuns`, `WholeRuns.GraceInRuns` |
| SplitRuns, SplitBans, SplitFailures, SplitRates | the same tables with reads and writes as separate, overlapping steps | `SplitBans.GraceRespected`, `SplitRates.SpacedNeverBanned`, `SplitFailures.BanNeedsFailures`, `SplitRuns.UndividedIsSerial` |
| Locks, LockRuns, LockGuards, LockRaces | all mutexes and all kinds of thread | `LockRuns.CanAlwaysSettle`, `LockGuards.ConflictsAreClashes`, `LockRaces.ClashesHappen` |

Conventions. Text is a sequence of bytes; where the program hands a string to C, the model cuts it at the first NUL.
Code that changes state is a class or a method proved against a specification function, and the theorems are about
runs of those functions. Every outcome the code does not decide is an input: clocks, each try-lock, the socket, the
drawn text, the memory behind a short buffer. HMAC, SHA-256, RE2, `inet_addr` and `stoi` are arbitrary functions; no
theorem assumes that the MAC is injective, `CaptchaExchange` only that it does not collide on the two texts compared.

Granularity. Steps are taken at three levels. In the Swabber, FailureCount and RateRuns files a call or visit is one step.
In Isolation, Traces and WholeRuns a request takes two steps, its pass through the filters and, if a challenge answers it,
the making of its page later on (src/transaction_data.cpp:19-54). In the Split files each read and each write of a table is
a step of its own, because each takes its own try-lock (src/ip_db.h:54, 77, 92), and operations of any requests may overlap.
Grace safety, the rate bound, the bound by recorded hits and the silence property hold at that level too, and a ban by the
challenger has a chain of failures behind it, each of which read what the one before it stored. What does not hold there
(reports a grace period apart, exact counting, bounds by the failures since the entry was last absent or a success last
stored, release after one report) is shown to fail by a run, and holds when no other operation of the same address comes
between a read and its write; operations of other addresses may always overlap. At that level the rate bound also needs a hit to read the table
before one with a later clock is stored, since the clock is read first (src/regex_manager.cpp:82-87).

Where the code differs from its documentation the model follows the code. `report_success` says that it wipes the
failure record, and stores one (src/challenger.cpp:735-745), so the first ban after a success needs one failure less.
The setting called number of trailing zeros counts leading zeros (src/challenger.cpp:185-209). The token is described
as hexadecimal and is base64 (src/cookiehash.cpp:44-57). A rule whose skip list names the host ends the whole match,
not only that rule (src/regex_manager.cpp:66-68). The answer to a password page must be as long as the configured hash
(src/challenger.cpp:222-223): the page's own answer, 44 characters, fails for a longer hash, and passes once enough pads
are appended, because decoding skips them. A dynamic address challenge runs twice (src/challenger.cpp:475-479).

In the lock model a thread is code with scopes, run one action at a time under an arbitrary schedule, and new threads may
arrive at any time. The Kafka thread owns a mutex of its own while it lives, and joining it is telling it to stop and
waiting for that mutex; until it is told to stop it goes on for ever.

## Model
| member | source | states |
|---|---|---|
| `Base64.Encode` | src/base64.cpp:23-56 | for every byte string the loop with its wrapping 32-bit accumulator writes exactly the encoding of section 4 of RFC 4648, given as groups of three octets |
| `Base64.EncodedAt` | src/base64.cpp:40-52 | character k of that encoding is the symbol of the k-th 6-bit slice of the zero-filled input, and padding from the first slice without data on; the loop is tied to the RFC's groups through this |
| `Base64.Decode` | src/base64.cpp:58-81 | skips white space and '=', fails exactly when some other character is outside the alphabet, and otherwise yields the octets of the 6-bit numbers, leftover bits dropped |
| `Base64.RoundTrip` | src/base64.cpp:23-81 | decoding the encoding of any byte string gives it back |
| `Base64.DecodingKeeps` | src/base64.cpp:58-81 | decoding any legal text keeps its 6-bit numbers: those of the octets' zero-filled slices are the text's own, up to the leftover bits |
| `Base64.InsertionIgnored` | src/base64.cpp:64-69 | white space and '=' inserted at any place of any text never change what it decodes to, nor whether it does |
| `Base64.EncodedIsLegal` | src/base64.cpp:31-52 | an encoding holds only alphabet characters and '=' |
| `Base64.NextSextet` | src/base64.cpp:41-45 | while the accumulator holds the low bits still owed, the picked 6 bits are the next slice of the input although older bits are shifted out |
| `Base64.NextOctet` | src/base64.cpp:73-77 | the byte taken from the decoding accumulator is the next octet of the 6-bit numbers read so far |
| `CookieJar.Consume` | src/cookie.cpp:30-108 | the step-by-step consumer returns the cookie and the remaining view of the jar grammar, on every input, malformed ones included |
| `CookieJar.Consumed` | src/cookie.cpp:30-108 | whenever a cookie is returned the view has become strictly shorter |
| `CookieJar.ConsumedExactly` | src/cookie.cpp:30-108 | the parser is a grammar: on every input the cookie returned, or its absence, and the rest of the view are exactly what the grammar derives (blanks and NUL, a stray ';', a name without a value, a name with a blank in it, a pair in any layout) |
| `CookieJar.TrimSpacePrefix` | src/cookie.cpp:11-15 | drops all leading white space and nothing else |
| `CookieJar.TrimSpaceSuffix` | src/cookie.cpp:17-21 | drops all trailing white space and nothing else |
| `CookieJar.TrailingBlanksIgnored` | src/cookie.cpp:17-21 | blanks appended to a text never change what is left after trimming |
| `CookieJar.ScanName` | src/cookie.cpp:41-47 | finds the first character that ends a name |
| `CookieJar.ScanValue` | src/cookie.cpp:90-99 | finds the first ';', NUL or CR LF, or the end |
| `CookieJar.Search` | src/challenger.cpp:259-294 | the loop terminates on every jar and returns the value of the first cookie of the wanted name among all cookies consumed until the parser gives up |
| `CookieJar.ConsumePair` | src/cookie.cpp:41-107 | a pair with any blanks in front, around its '=' signs and behind its value, and any number of signs, is consumed whole in front of ';', NUL, the end or the end of a line, whatever follows |
| `CookieJar.ConsumeSkipsSpaces` | src/cookie.cpp:37-37 | leading white space does not change what is consumed |
| `CookieJar.PrintParse` | src/cookie.cpp:30-108 | consuming the printed form of any list of well-formed pairs, in any layout, returns exactly that list |
| `CookieJar.ParsePrefix` | src/cookie.cpp:30-108 | well-formed pairs in front of arbitrary further text are consumed first and unchanged |
| `CookieJar.ConsumeValueless` | src/cookie.cpp:58-84 | a name without '=' is a cookie with an empty value if the header ends or ';' or NUL follows, behind any blanks, and ends the parse if anything else does |
| `CookieJar.ConsumeStray` | src/cookie.cpp:37-54 | blanks up to the end or a NUL yield no cookie, a stray ';' one without name and value |
| `CookieJar.ParsedWithoutNul` | src/cookie.cpp:88-101 | no value the parser returns holds a NUL |
| `PassToken.TimeRoundTrip` | src/cookiehash.cpp:53-53 | the eight bytes of any 64-bit signed time, negative ones included, are read back as that time |
| `PassToken.BytesRoundTrip` | src/cookiehash.cpp:88-88 | and any eight bytes are the bytes of the time read from them |
| `PassToken.LowByteFirst` | src/cookiehash.cpp:53-53 | the bytes of a time are those of its two's complement, lowest first |
| `PassToken.CopyInto` | src/cookiehash.cpp:26-31 | copies a string into the buffer at a position and leaves every other byte alone |
| `PassToken.GenerateCookieHash` | src/cookiehash.cpp:20-35 | the buffer filled by a moving pointer is time, address and answer joined, each text up to its NUL, and the result is the MAC over that |
| `PassToken.GenerateCookie` | src/cookiehash.cpp:46-59 | yields the 40-character token made of MAC and expiry |
| `PassToken.ValidateCookie` | src/cookiehash.cpp:75-100 | its five return codes are the verdict on length, encoding, MAC and expiry, in this order |
| `PassToken.ValidatedExactly` | src/cookiehash.cpp:75-100 | for every cookie, forged ones included: code 1 exactly when the text up to NUL is 40 characters, decodes, and its first 28 bytes are, for some time t not yet past, the MAC over time, address and answer followed by t; expired exactly for such a t in the past; the length and encoding errors exactly for their texts |
| `PassToken.IssuedIsPlain` | src/cookiehash.cpp:46-59 | an issued token is 38 alphabet characters and two pads, without NUL, and does not start with '=' |
| `PassToken.IssuedVerdict` | src/cookiehash.cpp:46-100 | an issued token, presented for any address and answer, is judged by MAC equality and then by expiry alone; length and encoding errors cannot happen |
| `PassToken.MacInputEquality` | src/cookiehash.cpp:26-31 | two MAC inputs are equal exactly when the times are equal and the joined texts are |
| `PassToken.JoinInjective` | src/cookiehash.cpp:28-31 | addresses of digits and dots joined with answers of letters can be taken apart again |
| `PassToken.MacInputInjective` | src/cookiehash.cpp:20-35 | on such addresses and answers the MAC input determines time, address and answer |
| `ZeroCount.CountZeros` | src/challenger.cpp:185-197 | counts the leading zeros of the digest's bits in the order the byte loop tests them, for a digest of any length |
| `ZeroCount.HasExpectedZeros` | config/solver.html:76-86 | compares the leading zeros of the hex string's bits, each nibble lowest bit first, with the difficulty |
| `ZeroCount.SameBits` | config/solver.html:79-83 | the lower-case hex string of any digest read nibble-wise shows the same bits as the digest read nibble-swapped |
| `ZeroCount.PageAndServerAgree` | config/solver.html:76-86 | at every difficulty the page's test on the hex string and the server's on the digest agree |
| `PassCheck.CheckSha` | src/challenger.cpp:177-210 | holds exactly when the hash of the text up to NUL starts with the configured number of zeros |
| `PassCheck.CheckAuthValidity` | src/challenger.cpp:218-244 | holds exactly when the text is long enough, its part behind the token decodes, and the bytes there are the hash of token and password hash |
| `PassCheck.PasswordExactly` | src/challenger.cpp:218-244 | for every text behind an issued token: a password challenge is passed exactly when the token is valid, the text is at least as long as the configured hash and decodes, and the 32 bytes read from it are the hash of token and password hash |
| `PassCheck.WrongPasswordRefused` | src/challenger.cpp:232-243 | a text that does not decode, or decodes to 32 other bytes, is refused |
| `PassCheck.CheckCookie` | src/challenger.cpp:252-298 | passes exactly when the first `deflect` cookie exists, meets its challenge's requirement, and its first 40 characters validate |
| `PassCheck.PassesExactly` | src/challenger.cpp:252-298 | which jars pass, for every jar: exactly those whose first `deflect` value begins with 40 characters that are a genuine, unexpired token for the address and answer, and is worth what the challenge asks of the whole value, stated on hex digits and bytes |
| `PassCheck.TokenPassesExactly` | src/challenger.cpp:252-298 | an issued token with anything behind it passes exactly until its expiry and if the whole value is worth what the challenge asks |
| `PassCheck.CarriedIsFound` | src/challenger.cpp:259-264 | the value in a jar's first `deflect` pair, behind any other cookies, in any layout and before anything after what closes it, is the one found |
| `PassCheck.CarriedTokenIsFound` | src/challenger.cpp:259-264 | so is an issued token with any blank-free suffix in such a jar |
| `PassCheck.CarriedTokenPasses` | src/challenger.cpp:252-298 | in any jar at all, if the first `deflect` value is an issued token followed by any suffix, it passes for any address and answer exactly when the challenge requirement holds, the MACs agree and the expiry has not passed |
| `PassCheck.IssuedTokenAccepted` | src/challenger.cpp:252-298 | end to end: in any jar whose first `deflect` value is a token issued with an empty answer, with any suffix, it is accepted for its address exactly until its expiry, given the challenge requirement |
| `PassCheck.Solve` | config/solver.html:87-101 | if any solution exists the search ends with the least one |
| `PassCheck.DecimalSpells` | config/solver.html:95-95 | the number a search text is made from is written in decimal digits that spell it, without leading zeros |
| `PassCheck.SolutionAccepted` | config/solver.html:87-104 | what the page takes for a solution passes the server, and only that, until expiry |
| `PassCheck.AuthTextAccepted` | src/challenger.cpp:218-244 | any text behind the token that decodes to the right hash is accepted until expiry exactly when it is at least as long as the configured password hash |
| `PassCheck.AuthAnswerAccepted` | src/challenger.cpp:218-244 | the page's answer of 44 characters followed by n pads is accepted until expiry exactly when the configured hash is at most 44 + n long |
| `ChallengePages.LastFind` | src/challenger.cpp:348-348 | the last position where a text occurs, none when it does not |
| `ChallengePages.GenerateHtml` | src/challenger.cpp:315-397 | the page, its code, its cookie and the new counter, flag and log state, for the picture, the answer and the template; passes expire when the challenge's validity period is over |
| `ChallengePages.PageKinds` | src/challenger.cpp:315-397 | which page, code and cookie every request gets: a picture exactly if the URL names the captcha; for an answer "OK" with a pass exactly if it is right, "Too many failures" exactly if the failure reaches the tolerance, "X" otherwise; else the template; and only a wrong answer is counted, once |
| `ChallengePages.AnswerOfUrl` | src/challenger.cpp:348-350 | an answer without '/' is recovered from the URL it was put into, even if the URL names the marker twice |
| `ChallengePages.CaptchaAnswered` | src/challenger.cpp:322-375 | whatever answer the URL holds, sent with the unmodified cookie it is accepted exactly when the URL does not ask for a picture, the MAC over the answer is the one in the cookie, and at most 120 seconds have passed |
| `ChallengePages.CaptchaExchange` | src/challenger.cpp:322-375 | unless the MAC collides on the two texts at hand: the same client is accepted exactly when it gives the drawn text in time, and across clients only the one the picture was drawn for |
| `Gif.MakeGif` | src/libcaptcha.c:46-90 | for every picture the buffer ends as the specified file and each of its 17646 bytes is written exactly once |
| `Gif.Emit` | src/libcaptcha.c:50-89 | writes a string behind what has been written, once per byte, changing nothing before it |
| `Gif.EmitRow` | src/libcaptcha.c:72-86 | one pass of the outer loop appends the row's sub-block and nothing else |
| `Gif.PackPixels` | src/libcaptcha.c:76-82 | packs the four pixels at the position the pointer has reached |
| `GifRoundTrip.RowsAreBlocks` | src/libcaptcha.c:72-86 | the rows read as 70 data sub-blocks of 250 bytes whose data is the packed groups in order (section 15 of GIF89a) |
| `GifRoundTrip.Codes` | src/libcaptcha.c:76-82 | unpacked five bits at a time, lowest first, the image data is clear code 16 and pixel i, for every pixel i |
| `GifRoundTrip.EndCode` | src/libcaptcha.c:88-89 | behind the last pixel comes end code 17 |
| `GifRoundTrip.DecodeFrom` | src/libcaptcha.c:72-89 | a decoder with growing tables and code widths (appendix F of GIF89a), started anywhere between two pixels with any table, reads exactly the remaining pixels and stays at width five |
| `GifRoundTrip.GifReadsBack` | src/libcaptcha.c:46-90 | a general GIF89a reader applied to the file returns a 200 by 70 picture with the pixels im[i] >> 4 and the sixteen greys |
| `IpDb.IpTable.constructor` | src/ip_db.h:32-32 | starts empty |
| `IpDb.IpTable.SetIpState` | src/ip_db.h:49-70 | stores the state of one address if the try-lock succeeds and changes nothing otherwise |
| `IpDb.IpTable.DropIp` | src/ip_db.h:72-85 | removes one address if the try-lock succeeds; true exactly when there was an entry to remove |
| `IpDb.IpTable.GetIpState` | src/ip_db.h:87-102 | none when the try-lock fails, the default state for an unknown address |
| `RateLimit.InWindow` | src/regex_manager.cpp:116-119 | inside the window a hit adds exactly one to the scaled rate |
| `RateLimit.Moved` | src/regex_manager.cpp:110-115 | a window move by m leaves r(1 - m/I) + 1, or 1 when that is negative, and the new window ends at the hit |
| `RateLimit.SpacedHit` | src/regex_manager.cpp:99-123 | the invariant behind the rate bound survives every further hit at distance d or more, in and out of the window |
| `RateLimit.DecayBound` | src/regex_manager.cpp:110-115 | no window move lifts the scaled rate over I/d + 1 |
| `RateLimit.CountedHit` | src/regex_manager.cpp:99-123 | a hit raises the scaled rate by at most one and keeps it nonnegative |
| `RateLimit.SilenceForgets` | src/regex_manager.cpp:110-115 | after two intervals of silence a hit leaves the scaled rate at most one |
| `RateLimit.FirstWindowHit` | src/regex_manager.cpp:101-119 | hits within one interval of the first count exactly |
| `RegexManager.Manager.TryMatch` | src/regex_manager.cpp:60-153 | the loop with its lazily loaded vector and its early returns does what the specified scan does: skip lists and rate-0 rules end it without storing, failed reads skip a rule |
| `RegexManager.MatchedExactly` | src/regex_manager.cpp:60-153 | what decides a visit, on every rule list, lock outcome and table: the first rule that skips the host (no ban, nothing stored), matches with rate 0 (ban, nothing stored), or counts the visit and reaches its threshold (ban, the counts so far stored); if there is none, no ban and every hit from the first successful read on is stored |
| `RegexManager.BannedExactly` | src/regex_manager.cpp:60-153 | rule j bans exactly when it is the first to halt the scan and does not skip the host |
| `RegexManager.ScanEffect` | src/regex_manager.cpp:65-152 | from any rule on, each record ends as it was or bumped once, no other address changes, and a ban names a matching rule whose threshold is reached or is zero |
| `RegexManager.MatchedEffect` | src/regex_manager.cpp:60-153 | the same for a whole visit |
| `RateRuns.SpacedNeverBanned` | src/regex_manager.cpp:86-125 | over every run of whole visits, whatever updates the try-locks lose: hits on a rule at least d apart never show more than I/d + 1, so a rule that asks for more never bans |
| `RateRuns.SpacedBanBound` | src/regex_manager.cpp:125-142 | conversely a ban of such an address by a rule means that it asks for at most I/d + 1 hits |
| `RateRuns.NeverOvercounts` | src/regex_manager.cpp:99-149 | over every run of whole visits and all lock outcomes the scaled rate is between zero and the number of hits that were recorded, lost ones not counted, which is at most the number of hits |
| `RateRuns.SilenceResets` | src/regex_manager.cpp:99-115 | over every run a hit two intervals after all earlier ones leaves at most one |
| `RateRuns.ScanReaches` | src/regex_manager.cpp:65-152 | which records the loop counts: from any earlier rule on, with its locks succeeding and no rule skipping the host or banning without a rate, a hit on rule j is counted in j's record and bans exactly at j's threshold, unless a rule before j bans |
| `RateRuns.UndisturbedCounts` | src/regex_manager.cpp:65-152 | the same for a whole visit, whatever other rules it matches |
| `RateRuns.FirstWindowRun` | src/regex_manager.cpp:99-149 | for whole visits: within one interval of the first hit the stored rate is exactly the number of hits, whatever else the address requests |
| `RateRuns.BansAtExactly` | src/regex_manager.cpp:99-149 | for whole visits: the rule bans a visit exactly when it is a hit and at least the hits-per-interval-th one; the address may request anything else meanwhile, and so may others |
| `Swabber.Reporter.Ban` | src/swabber.cpp:106-177 | new flags and log for every grace period, flag, and outcome of the four try-locks and the socket |
| `Swabber.Reporter.OnHttpRequest` | src/denialator.cpp:19-50 | denies exactly the flagged addresses that are not globally white-listed, and re-reports those whose grace period has passed |
| `Swabber.FlagsExplained` | src/swabber.cpp:113-136 | for whole calls: every flag in every reachable table was stored by an earlier call at the time it shows, and no call since removed it |
| `Swabber.GraceRespected` | src/swabber.cpp:106-177 | for whole calls: with a grace period and any lock failures, every report comes at least that long after an earlier stored ban request for the address |
| `Swabber.ReportsApart` | src/swabber.cpp:131-176 | for whole calls: if a report removed its flag, the next report of the address is at least a grace period later |
| `Swabber.NoGraceNoFlags` | src/swabber.cpp:113-113 | without a grace period the flag table is empty for ever |
| `Swabber.RunIsChronicle` | src/swabber.cpp:113-176 | for whole calls, read off the log: every flag has its line, and every banned line has a flagged line of its address above it that is a grace period older |
| `FailureCount.Tally.ReportFailure` | src/challenger.cpp:701-733 | counts, or bans through the swabber and drops the entry at the tolerance; true exactly when it asked for a ban |
| `FailureCount.Tally.ReportSuccess` | src/challenger.cpp:741-746 | stores one, not zero, when the lock succeeds |
| `FailureCount.LastAnchor` | src/challenger.cpp:701-746 | the latest moment at which the entry was absent or a success had just been stored, with neither in between |
| `FailureCount.CounterBound` | src/challenger.cpp:701-746 | for whole steps: the counter never exceeds the failures counted since that moment, plus one after a success |
| `FailureCount.BanNeedsFailures` | src/challenger.cpp:714-727 | for whole steps with any lock failures: a ban with tolerance T means T counted failures since the entry was last absent, or T - 1 since the last stored success |
| `FailureCount.CounterExact` | src/challenger.cpp:701-733 | for whole steps with locks succeeding the counter is the number of failures |
| `FailureCount.BannedOnExactly` | src/challenger.cpp:701-733 | for whole steps: an address without an entry that keeps failing is banned on exactly its T-th failure, and its entry is gone then |
| `WhiteList.MatchIsPrefix` | src/util.cpp:190-196 | the masked comparison holds exactly when the first k bits agree, for k from 1 to 32 |
| `WhiteList.MatchIsBlock` | src/util.cpp:190-232 | that is membership in the aligned block of 2^(32-k) addresses (section 3.1 of RFC 4632) |
| `WhiteList.MakeMaskForRange` | src/util.cpp:205-232 | address and mask of a range; no slash keeps all 32 bits, a length over 32 is refused |
| `WhiteList.GlobalWhiteList.constructor` | src/global_white_list.h:49-51 | starts with nobody listed |
| `WhiteList.GlobalWhiteList.Insert` | src/global_white_list.h:9-11 | exactly the addresses matched by the new range become listed, everywhere and for every host |
| `WhiteList.GlobalWhiteList.InsertFor` | src/global_white_list.h:13-15 | exactly those become listed for the one host |
| `WhiteList.GlobalWhiteList.IsWhiteListed` | src/global_white_list.h:17-26 | returns a matching range exactly when there is one |
| `WhiteList.GlobalWhiteList.IsWhiteListedFor` | src/global_white_list.h:28-47 | the same over the ranges for everywhere and for the host |
| `WhiteList.FirstMatch` | src/global_white_list.h:19-25 | the search loop finds a matching range exactly when there is one |
| `MagicWords.IsMatch` | src/challenger.cpp:624-632 | a substring word matches exactly the URLs it occurs in |
| `MagicWords.NeedsAuthentication` | src/challenger.cpp:634-667 | exactly when some word matches anywhere and no exception occurs before the first '?' |
| `MagicWords.QueryKeepsProtection` | src/challenger.cpp:634-667 | appending any query to a protected URL leaves it protected |
| `MagicWords.QueryOnlyAddsWords` | src/challenger.cpp:652-664 | a URL with a query is protected exactly when some word occurs in, or its expression matches, all of it, and no exception occurs in the part before the query |
| `MagicWords.PlainProtected` | src/challenger.cpp:634-667 | the same for a URL without a query |
| `Challenger.Filter.constructor` | src/challenger.h:256-283 | starts with empty dynamic tables |
| `Challenger.Filter.LoadSingleHostChallenge` | src/challenger.cpp:98-111 | adds or replaces one host's challenge and nothing else |
| `Challenger.Filter.LoadSingleIpChallenge` | src/challenger.cpp:113-126 | adds or replaces one address's challenge and nothing else |
| `Challenger.Filter.RemoveExpiredChallenges` | src/challenger.cpp:128-157 | both tables keep exactly the entries that are not older than the expiry time, unchanged |
| `Challenger.Unexpired` | src/challenger.cpp:135-142 | the erasing loop keeps exactly the entries that are not too old |
| `Challenger.Filter.Select` | src/challenger.cpp:446-484 | static challenges first, then the host's dynamic one, then the address's, which is pushed twice; a failed try-lock lets the request through |
| `Challenger.Filter.RunCaptcha` | src/challenger.cpp:507-543 | reply and new state of one captcha challenge |
| `Challenger.Filter.RunShaInverse` | src/challenger.cpp:545-578 | reply and new state of one computational challenge |
| `Challenger.Filter.RunAuth` | src/challenger.cpp:580-616 | reply and new state of one password challenge |
| `Challenger.Filter.RunChallenge` | src/challenger.cpp:496-617 | one turn of the loop: the challenge's own white list first, then its type |
| `Challenger.Filter.OnHttpRequest` | src/challenger.cpp:437-622 | selection and the whole loop, ending in a stored success when every challenge is passed over |
| `Challenger.TwiceIsOnce` | src/challenger.cpp:469-480 | running the doubled challenge never changes reply or ban reports, and changes the failure counter exactly when, for a passed captcha, the superfluous update is the only one to get its lock |
| `Challenger.TwiceCanDiffer` | src/challenger.cpp:469-480 | that exception happens: for every key and address there is a pass holder with two failures whose counter ends at 1 instead of 2 |
| `Challenger.SecondRoundContinues` | src/challenger.cpp:496-617 | if the first run of a challenge moves on, so does a second at the same time, for every type |
| `Passage.Judged` | src/challenger.cpp:437-622 | for every request and every list of challenges it meets, of any kinds: static ones whatever came over Kafka, else the one sent for its host, else twice the one sent for its address. If all let it on it goes ahead and leaves everything as it was but for a stored success; otherwise the first that does not gives the reply and the whole new state (its own white list, a fresh copy for a passed password, or its page, which is a ban page exactly when the failure reaches the tolerance and clears the cookie exactly for computational and password challenges) |
| `Passage.CookieJudged` | src/challenger.cpp:437-622 | the same in terms of the bytes of the cookie: nothing but a genuine, unexpired token worth what the challenge asks passes it |
| `Passage.MeetsExactly` | src/challenger.cpp:448-484 | a request meets exactly one list of challenges or none; if none, it goes ahead and nothing changes |
| `Passage.TemplateToken` | src/challenger.cpp:377-396 | the token in a page is a pass for the address the page was made for |
| `Passage.SolvedPagePasses` | src/challenger.cpp:377-397 | page, solver and challenger together: a client that appends a text of the page's search to its token is judged, by whatever challenges it meets, by the page's own test and the page's validity period |
| `Passage.SolvedGoesAhead` | src/challenger.cpp:545-578 | with computational challenges only and no white list, it goes ahead exactly when the page's test accepts its text and the validity period has not run out at any of them, and otherwise gets the page of a challenge |
| `Passage.AnsweredCaptchaPasses` | src/challenger.cpp:353-363 | the cookie set for an accepted answer is a pass, by whatever challenges the client meets, for the validity period of the challenge |
| `Passage.AnsweredGoesAhead` | src/challenger.cpp:510-543 | with captchas only and no white list, it goes ahead exactly while that period lasts, and otherwise gets the page of a challenge |
| `Passage.HolderJudged` | src/challenger.cpp:437-622 | a pass with any suffix is judged, challenge by challenge, by its validity and the challenge's own requirement |
| `Passage.PasswordPasses` | src/challenger.cpp:580-616 | with one password and one time, any text behind the token of the page: a fresh copy exactly for the password in time, and otherwise asked again exactly on pages one of the challenges protects |
| `Passage.PasswordJudged` | src/challenger.cpp:580-616 | any text, any number of password challenges with their own passwords, any times: the first challenge that takes the text for its password (served fresh) or protects the page (asked again) decides; if there is none the request goes ahead |
| `Passage.WrongPasswordAsked` | src/challenger.cpp:580-616 | a wrong text is never served a fresh copy, and is asked again exactly on protected pages |
| `Pipeline.Banjax.CheckWhiteList` | src/white_lister.cpp:59-73 | waves through exactly the addresses listed everywhere or for the host |
| `Pipeline.Banjax.CheckRegex` | src/regex_manager.cpp:155-198 | matches the joined record and asks the swabber for a ban on a hit |
| `Pipeline.Banjax.Execute` | src/transaction_data.cpp:67-67 | each filter has exactly its specified effect on the shared tables |
| `Pipeline.Banjax.HandleRequest` | src/transaction_data.cpp:56-110 | the loop over the filters with its early exits, on whole states |
| `Pipeline.Banjax.Serve` | src/transaction_data.cpp:56-158 | request and response together, on whole states |
| `Verdicts.HandledExactly` | src/transaction_data.cpp:56-110 | the verdict for every list of filters: a request that passes all of them proceeds, marked exactly if some challenge wanted it served fresh; otherwise the first filter that ends the loop decides: white-listed proceeds unstored, flagged is denied (and reported when overdue), a regex hit is forbidden and asked to be banned, a challenge's reply is the answer; with the new tables |
| `Verdicts.PathExists` | src/transaction_data.cpp:65-107 | every request has such a way through the filters |
| `Verdicts.ServedExactly` | src/transaction_data.cpp:56-158 | what the client gets: the origin's page with its marks, the denied or forbidden text, or the page the stopping challenge generates in the state the filters left, or its ban page |
| `Verdicts.ChallengerDecides` | src/transaction_data.cpp:67-107 | when the other filters go ahead, the challenger's reply is what the client gets: proceed, proceed fresh, proceed unstored, or its page |
| `Verdicts.StoppedGetsPage` | src/challenger.cpp:559-572 | for every list of challenges and every cookie, the first challenge that stops the request has its page sent, a ban page exactly at the tolerance |
| `Verdicts.SolvedServed` | src/challenger.cpp:545-578 | the solved page gets the origin's page exactly in time, otherwise a challenge page |
| `Verdicts.AnsweredServed` | src/challenger.cpp:510-543 | so does the cookie of an accepted captcha answer |
| `Verdicts.PasswordServed` | src/challenger.cpp:580-616 | the origin's fresh page exactly for the password in time; a challenge page exactly otherwise on protected pages |
| `Verdicts.WrongPasswordServed` | src/challenger.cpp:580-616 | never the origin's fresh page for a wrong text, at any times |
| `Verdicts.ListedNeverDenied` | src/denialator.cpp:23-25 | a globally white-listed address is never denied, whatever the filters, their order and the tables |
| `Verdicts.NoDenial` | src/denialator.cpp:23-25 | for such an address the Denialator goes ahead and changes nothing |
| `Verdicts.TurnsAreServed` | src/transaction_data.cpp:19-54 | filters and page of a request, with nobody in between, are the whole request |
| `Verdicts.RecordReadsBack` | src/regex_manager.cpp:159-172 | the text rules are matched against is method, URL, host and agent in this order, taken apart again if the first three hold no blank |
| `Isolation.BanLocal` | src/swabber.cpp:106-177 | a ban request depends only on what the state holds for its address |
| `Isolation.BanForeign` | src/swabber.cpp:106-177 | and touches nothing of another address |
| `Isolation.DenyLocal` | src/denialator.cpp:19-50 | the Denialator depends only on the requesting address |
| `Isolation.ScanLocal` | src/regex_manager.cpp:60-153 | the rate limiter depends only on the requesting address |
| `Isolation.RoundsLocal` | src/challenger.cpp:496-621 | the challenger depends only on the requesting address |
| `Isolation.RoundsForeign` | src/challenger.cpp:496-621 | and touches nothing of another address |
| `Isolation.ServedLocal` | src/transaction_data.cpp:56-158 | a whole request at once, filters and page: response and what it leaves for its address depend only on what the tables hold for that address |
| `Isolation.TakenLocal` | src/transaction_data.cpp:19-54 | so do its two moments, the filters when the headers are read and the page when the response is sent |
| `Isolation.TakenForeign` | src/transaction_data.cpp:19-54 | neither of them changes an entry or a log line of another address |
| `Isolation.OthersDoNotMatter` | src/transaction_data.cpp:19-158 | non-interference: over every interleaved run of filter passes and pages, the reactions to an address, its entries in all tables and its log lines are those of the run without everybody else's turns |
| `Isolation.ListedPasses` | src/transaction_data.cpp:66-107 | with the white lister first, a globally listed address goes to the origin and the tables stay as they are |
| `Isolation.ListedStaysClean` | src/transaction_data.cpp:66-107 | hence no run ever changes any entry or log line of such an address |
| `Isolation.FlaggedIsDenied` | src/denialator.cpp:19-50 | one request of a flagged address is denied, and is reported and released exactly when the grace period is over |
| `Isolation.DeniedUntilReported` | src/denialator.cpp:19-50 | after a flag at t0, whatever others do, for requests of the address whose filter passes do not overlap: every one is denied up to and including the first at or after t0 + grace; that one and none before it reports and drops the flag; the next one gets past the filter |
| `Traces.TurnReplays` | src/transaction_data.cpp:19-158 | a turn changes the tables by its visit to the rate limiter, its ban requests and its counter updates, in order, and in no other way |
| `WholeRuns.RunIsParts` | src/transaction_data.cpp:19-158 | after every interleaved run of filter passes and pages each table is what its own component leaves when run on its own calls alone |
| `WholeRuns.GraceInRuns` | src/swabber.cpp:106-177 | over every run of filter passes and pages, whichever of them ask for bans: a banned line has a flagged line of the same address above it that is a grace period older |
| `WholeRuns.NoFlagsInRuns` | src/swabber.cpp:113-113 | without a grace period no run of requests flags anybody |
| `WholeRuns.CounterInRuns` | src/challenger.cpp:701-746 | after every such run an address's failure counter is at most its failures since its entry was last absent, or since its last stored success plus one |
| `WholeRuns.RateInRuns` | src/regex_manager.cpp:86-125 | over every such run, whatever filters come first: if the matching requests of an address are at least d apart its stored rate never shows more than I/d + 1 |
| `WholeRuns.SpacedInRuns` | src/regex_manager.cpp:86-125 | and a rule that asks for more bans none of its requests |
| `WholeRuns.CountInRuns` | src/regex_manager.cpp:99-149 | the stored rate never shows more hits than were recorded |
| `WholeRuns.ExactInRuns` | src/regex_manager.cpp:99-149 | within one window a rule bans a request that reaches it exactly from the hits-per-interval-th hit on |
| `WholeRuns.SilenceInRuns` | src/regex_manager.cpp:99-115 | a hit two intervals after all earlier ones leaves the rate at one at most |
| `WholeRuns.BannedInRuns` | src/challenger.cpp:701-733 | an address that keeps failing is banned by exactly the T-th failure |
| `SplitRuns.EntryExplained` | src/ip_db.h:49-102 | with reads and writes of the tables as separate steps of overlapping operations: every entry was written by an operation of its address, which carried out what it had decided on the entry it read, and has stood unchanged since |
| `SplitRuns.OthersDoNotMatter` | src/ip_db.h:49-102 | what an address reads and stores is decided by its own operations, however those of others overlap with them |
| `SplitRuns.UndividedIsSerial` | src/ip_db.h:49-102 | if no other operation of the address comes between the read and the write of one, its entry is what whole operations leave |
| `SplitRuns.UndividedRead` | src/ip_db.h:49-102 | and each of them reads what the whole operations before it left |
| `SplitBans.WholeCall` | src/swabber.cpp:106-177 | read and write with nothing in between are a whole call of ban, flags and log lines included |
| `SplitBans.WholeRequest` | src/denialator.cpp:19-50 | a look and such a call are a whole pass of the Denialator |
| `SplitBans.GraceRespected` | src/swabber.cpp:106-177 | grace safety however calls overlap and locks fail: a call that reports has read a flag that another call had stored before, a grace period earlier by their clocks, and that had stood ever since |
| `SplitBans.LooksDoNothing` | src/denialator.cpp:27-33 | the looks of the Denialator leave table and pending calls as they would be without them |
| `SplitBans.ReportsApart` | src/swabber.cpp:131-176 | if no other call for the address comes between a read and its write and clocks are in the order of the calls, its reports are a grace period apart, wherever the Denialator looks and however calls for others overlap |
| `SplitBans.TwoReportsAtOnce` | src/swabber.cpp:115-176 | without that condition they need not be: an overlapping run with all locks succeeding in which two reports come at once |
| `SplitBans.StaysFlagged` | src/denialator.cpp:19-50 | however requests of a flagged address overlap, until the first drop takes effect every look finds the flag and denies, and every overdue call reports |
| `SplitBans.DropReleases` | src/swabber.cpp:176-176 | that drop releases the address |
| `SplitBans.DeniedAgain` | src/denialator.cpp:27-45 | an overlapping run in which the released address is flagged anew at once, so that its next request is denied again |
| `SplitFailures.WholeStep` | src/challenger.cpp:701-746 | read and write with nothing in between are a whole failure or success |
| `SplitFailures.BanNeedsFailures` | src/challenger.cpp:701-746 | however requests overlap and locks fail: a ban with tolerance T ends a chain of T failures of the address, each of which read the counter that the one before it had stored and that stood until then; the first found no entry, or, for T - 1 failures, the counter of a stored success |
| `SplitFailures.ReadIsChain` | src/challenger.cpp:707-745 | what a failure reads is exactly what such a chain has counted |
| `SplitFailures.BanSinceLastAnchor` | src/challenger.cpp:714-727 | if no other step of the address comes between a read and its write, a ban means T failures since the entry was last absent, or T - 1 since the last stored success |
| `SplitFailures.CounterBound` | src/challenger.cpp:701-746 | under the same condition the counter never exceeds the failures since the entry was last absent, or since the last stored success plus one |
| `SplitFailures.BannedOnExactly` | src/challenger.cpp:701-733 | under the same condition an address that keeps failing is banned by exactly its T-th failure, however steps of others overlap |
| `SplitFailures.OverlapCountsOnce` | src/challenger.cpp:707-730 | two failures that overlap count once: the second does not ban at tolerance two |
| `SplitFailures.SuccessForgotten` | src/challenger.cpp:707-745 | a success stored between the read and the write of a failure is lost: from three the counter goes to one and then to four |
| `SplitRates.ChangeEffect` | src/regex_manager.cpp:86-149 | a visit decides to store each record as it read it or with itself counted once |
| `SplitRates.WholeVisit` | src/regex_manager.cpp:60-153 | read and write with nothing in between are a whole visit |
| `SplitRates.NeverOvercounts` | src/regex_manager.cpp:99-149 | however visits overlap, locks fail and clocks are read: the stored rate is nonnegative and shows at most as many hits as writes that changed the rule's record from what their visit had read |
| `SplitRates.SpacedNeverBanned` | src/regex_manager.cpp:86-125 | however visits overlap and locks fail: if every hit that reads after another was stored has a clock at least d later, the stored rate never shows more than I/d + 1 and a rule that asks for more never bans |
| `SplitRates.PromptIsSpaced` | src/regex_manager.cpp:81-90 | that is so if clocks are d apart and every hit reads the table before one with a later clock is stored |
| `SplitRates.LateReadBans` | src/regex_manager.cpp:81-90 | clocks d apart alone are not enough: a hit that reads its clock first and the table last is banned beyond the bound |
| `SplitRates.SilenceResets` | src/regex_manager.cpp:99-115 | however visits overlap and locks fail: a hit whose clock is two intervals after that of every hit stored before it read leaves the rate at one at most |
| `SplitRates.BansAtExactly` | src/regex_manager.cpp:99-149 | if no other visit of the address comes between a read and its write, the rule bans exactly from the hits-per-interval-th hit on |
| `SplitRates.OverlapCountsOnce` | src/regex_manager.cpp:86-149 | two visits that overlap count once: the second is not banned by a rule that asks for two |
| `Locks.ProgramRanked` | src/challenger.cpp:99-157 | every kind of thread waits only for mutexes ranked above all it holds, joining the Kafka thread included |
| `Locks.RequestPolite` | src/challenger.cpp:454-480 | a request, with any filters in any order, only tries mutexes |
| `Locks.SteppedOrderly` | src/defer.h:3-13 | one action of a thread keeps its stack of scopes well ranked, with no mutex held twice |
| `Locks.SteppedHeld` | src/defer.h:3-13 | one action takes or releases at most one mutex, and the owners follow |
| `Locks.RunConsistent` | src/banjax.cpp:44-81 | in every reachable state the owners of the mutexes are exactly the threads inside their scopes |
| `Locks.MutualExclusion` | src/swabber.cpp:147-185 | never are two threads inside scopes of the same mutex |
| `LockRuns.RunTame` | src/kafka.cpp:164-168 | in every reachable state a thread that waits for the Kafka thread has told it to stop |
| `LockRuns.SomeoneCanGo` | src/kafka.cpp:104-162 | from any waiting thread the chain of owners climbs in rank and ends at a thread that can act and is not an idle Kafka thread |
| `LockRuns.NoDeadlock` | src/banjax.cpp:44-81 | for any number of threads under every schedule: while a thread is unfinished, some thread can act |
| `LockRuns.CanAlwaysSettle` | src/kafka.cpp:104-168 | from every reachable state all threads present can run to their ends without further loop rounds, except for Kafka threads nobody has told to stop, which come to rest between two rounds without any mutex; so no wait ever becomes permanent |
| `LockRuns.StepsAreBounded` | src/kafka.cpp:104-168 | under every schedule, effective steps that begin no further loop round number at most the work the threads have left |
| `LockRuns.RequestsNeverWait` | src/ip_db.h:49-102 | a request thread can act in every reachable state until it is done |
| `LockGuards.ProgramKeeps` | src/kafka.cpp:171-228 | how every kind of thread reads and writes everything that has a mutex, inside its scopes and outside |
| `LockGuards.ConflictsAreClashes` | src/challenger.cpp:99-157 | under every schedule, two threads are about to access the same thing, one of them to write it, only if they are of kinds that clash: a reload and a thread that reads the current instance, the status timer and a request that changes an address table, or two requests that write the ban log |
| `LockRaces.InstanceRace` | src/banjax.cpp:56-80 | for requests and both timers, a schedule in which one of them reads the current instance while a reload writes it |
| `LockRaces.TableRace` | src/ip_db.h:104-110 | for each address table and every request that changes it, a schedule in which the status timer reads its size meanwhile |
| `LockRaces.LogRace` | src/swabber.cpp:124-129 | for any two requests that may ask for bans, a schedule in which one logs a flag while the other logs a ban |
| `LockRaces.ClashesHappen` | src/banjax.cpp:224-243 | so the condition is exact: for any two kinds of thread that clash over something some schedule makes them conflict |

## Left out
- The Apache Traffic Server API, ZeroMQ, librdkafka, JSON and YAML: only their lock and success outcomes appear.
- SHA-256, HMAC-SHA1, AES-GCM and RE2 themselves, and how an address string becomes a number.
- Rounding: the hit rate is an exact real number, not a `float`; counters and clocks do not wrap around.
- Inputs outside what the code can handle: prefix length 0 (a shift by 32), a rule with interval 0, a MAC input over 200 bytes, a clock not yet past the interval of a rule, an expiry past the 64-bit range (a clock within 2^32 seconds of its end).
- The pass, fail and ban reports sent to Kafka; a doubled address challenge sends its pass report twice.
- When the swabber's socket is there and bound: each ban request is given the outcome.
- Captcha drawing, page templates and the substitution in them, header extraction, logging, metrics.
- The bot sniffer, except for its mutex.
- The carrying over of dynamic challenges across a reload: a new instance starts with empty tables.
- Reading configuration files and merging them; rules, challenges and lists are given.
- The per-transaction mutexes of the server's event system, and ending a request while a plugin instance is destroyed at process exit.
- IpDb.IpTable.SetIpState: the table is one map; hashing and allocation are not modelled.
- LockGuards.ConflictsAreClashes: `config_valid`, which has no mutex, is not part of the lock model, and `shutting_down` is set in one step.
- Swabber.RunIsChronicle: is about whole calls; when calls overlap the line of a flag may come after the line of a ban that read it.
