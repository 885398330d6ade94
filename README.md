# A verified model of the debate engine

The debate engine runs a weekly discussion on a static web page. Four AI perspectives (north,
east, south and west) and a referee take part. Each run is started by a scheduler. It:

- works out the week's topic from a catalog;
- refreshes the topic banner of `index.html`;
- asks each perspective, or the referee, for a text when the Amsterdam day and hour call for one;
- renders every text as an HTML post card with its body escaped;
- splices the cards into the page, newest first, right after the posts marker;
- saves the page.

A test script does the same with prepared posts instead of the language model. Its banner
pattern differs, and it has no fallback.

The model is written in Dafny, one module per concern:

| module | file | models |
|---|---|---|
| `Strings` | `strings.dfy` | `indexOf`, occurrences, `join`, global single-character `replace`, decimal digits, ASCII case, JavaScript `\s` |
| `Escaping` | `escaping.dfy` | the escaping chain of `createPostCard`, its decoder, and the safety of the escaped markup |
| `Schedule` | `schedule.dfy` | the if/else-if chain of `run` that picks the action for a day and hour |
| `Topics` | `topics.dfy` | `getCurrentTopic` |
| `Cards` | `cards.dfy` | `formatTimeString` and the card template of `createPostCard` |
| `Injection` | `injection.dfy` | `injectPost` (and `injectPosts` of the test script, the same code) |
| `Substitution` | `substitution.dfy` | the `$` patterns that `String.prototype.replace` expands in a replacement string (GetSubstitution, section 22.1.3.19.1 of ECMA-262) |
| `Banner` | `banner.dfy` | `updateTopicBanner`: the banner template, the regular expression as a search for its first match, the replacement and the fallback |
| `Engine` | `engine.dfy` | `generateIntroPost`, `generateOpeningPosts`, `generateReactionPosts`, `generateSummaryPost` and `run` |
| `TestEngine` | `test_engine.dfy` | the test script's `createPostCard`, `updateTopicBanner` and `run` |

A lazy regular expression is modelled by the set of its matches together with the order in
which a backtracking engine tries them: leftmost start first, then the shortest lazy parts. A
search function is proved to return exactly the first match in that order. A greedy `\s*` in
front of a tag that does not start with whitespace can only take the whole whitespace run.

The outside world enters as parameters:

- the elapsed whole days since the start date;
- the Amsterdam day of the week and hour;
- the formatted date;
- the language model's answers, as a function from the call's position in the run to its text.

## Model

| member | source | states |
|---|---|---|
| `Topics.GetCurrentTopic` | debate-engine.js:101-132 | computes the topic the engine settles on; a topic is found exactly when the catalog is non-empty, the record comes from the catalog, and the week number is `floor(days / 7) + 1`, raised to 1 |
| `Topics.TopicFor` | debate-engine.js:107-126 | the topic lookup as a function: its cases are stated by `ExactWeekWins`, `CycledWeekFallback`, `FirstRecordFallback` and `RunFailsExactlyWithoutTopics`, and `GetCurrentTopic` is proved equal to it |
| `Topics.WeekNumber` | debate-engine.js:107-112 | the week number is at least 1; from day 0 on, week `w` covers days `7(w-1) .. 7w-1`; before the start date it is 1 |
| `Topics.CycledWeek` | debate-engine.js:119 | the cycled week lies in 1 .. 52, equals the week within the first 52, and is congruent to it modulo 52 |
| `Topics.FindWeek` | debate-engine.js:115 | `find` returns the first record for the week, and nothing exactly when no record has that week |
| `Topics.ExactWeekWins` | debate-engine.js:115 | the earliest record for the exact week is chosen |
| `Topics.CycledWeekFallback` | debate-engine.js:118-121 | with no record for the week, the earliest record for the cycled week is chosen |
| `Topics.FirstRecordFallback` | debate-engine.js:124-126 | with neither week catalogued, the first record is chosen |
| `Topics.FullYearCycles` | debate-engine.js:115-121 | with all weeks 1 .. 52 catalogued, the chosen record carries the week or the cycled week |
| `Topics.CycleIgnoresCatalogLength` | debate-engine.js:119 | the cycle is the literal 52: with weeks 1 and 2 catalogued, week 4 falls back to the first record |
| `Schedule.Dispatch` | debate-engine.js:516-574 | each action fires exactly at its moment (both directions): intro on Sunday 22:00; opening on weekdays 08:00; reactions on weekdays 12:00, 18:00 and 22:00, with the hour as slot; summary on Saturday 22:00; nothing otherwise, which is the only action adding no posts |
| `Schedule.PostCount` | debate-engine.js:516-565 | the `postsAdded` of each branch; `Dispatch` states that only the idle action adds none, and `PostsPerDay` and `WeeklyPostCount` sum it |
| `Schedule.PostsPerDay` | debate-engine.js:516-574 | over a whole day a weekday adds 16 posts, Saturday and Sunday 1 |
| `Schedule.WeeklyPostCount` | debate-engine.js:516-574 | a full week of hourly runs adds 82 posts |
| `Escaping.EscapeSingle` | debate-engine.js:355-359 | on one character the replace chain gives `&amp;`, `&lt;`, `&gt;`, `<br>` or the character itself |
| `Escaping.Escape` | debate-engine.js:355-359 | the four global replacements in order; its properties are `EscapeIsPerChar`, `EscapeSafe`, `UnescapeEscape` and `EscapeInjective` |
| `Escaping.EscapeConcat` | debate-engine.js:355-359 | escaping distributes over concatenation |
| `Escaping.EscapeIsPerChar` | debate-engine.js:355-359 | the ordered chain of four global replacements equals a single per-character pass, because `&` is replaced first |
| `Escaping.EscapePlain` | debate-engine.js:355-359 | text without `&`, `<`, `>` or a newline is unchanged |
| `Escaping.EscapeSafe` | debate-engine.js:355-359 | the escaped body has no newline; every `<` and `>` belongs to a `<br>`; every `&` starts an entity |
| `Escaping.UnescapeEscape` | debate-engine.js:355-359 | decoding the escaped body gives back the original text |
| `Escaping.EscapeInjective` | debate-engine.js:355-359 | distinct bodies never escape to the same markup |
| `Cards.FormatTimeString` | debate-engine.js:336-338 | hours below 100 give two zero-padded digits and `:00`; larger ones give all their digits and `:00` |
| `Cards.FormatTimeReadsBack` | debate-engine.js:336-338 | for every hour, the slot time ends in `:00`, and the digits in front of it, at least two, denote the hour |
| `Cards.Badge` | debate-engine.js:350 | the badge of a new post; `BadgeOnlyWhenNew` states where it goes |
| `Cards.CreatePostCard` | debate-engine.js:349-376 | the card template filled in; `RenderDecodes`, `CardInjective`, `CardNamesAuthor` and `CardNonEmpty` state its properties |
| `Cards.RenderDecodes` | debate-engine.js:349-376 | the body region of a card, cut out between the head and the closing lines, decodes to the content exactly and is safe markup |
| `Cards.CardInjective` | debate-engine.js:349-376 | two cards with the same perspective, time, badge and date are equal only if their contents are |
| `Cards.BadgeOnlyWhenNew` | debate-engine.js:350 | a new post's card is the old post's card with the `NIEUW` badge inserted right after the author's name |
| `Cards.CardNamesAuthor` | debate-engine.js:352 | a card opens with the perspective as its class token and names the upper-cased perspective, then ` AI `, right before the badge |
| `Cards.CardNonEmpty` | debate-engine.js:361-375 | every card is non-empty |
| `Injection.InsertionPointSpec` | debate-engine.js:138-159 | the insertion point is the end of the first posts marker; else the end of the first wall tag; there is none exactly when neither occurs |
| `Injection.InsertionPoint` | debate-engine.js:139-156 | where `injectPost` splices; `InsertionPointSpec` states which marker decides it |
| `Injection.InjectPost` | debate-engine.js:138-159 | `injectPost`; `InjectRemovable`, `MarkerPriority`, `InjectKeepsPoint` and `NewestFirst` state its properties |
| `Injection.InjectRemovable` | debate-engine.js:138-159 | the page grows by the block and one newline, and cutting them out gives the page back |
| `Injection.MarkerPriority` | debate-engine.js:141-155 | the posts marker wins over the wall tag wherever the two occur; with neither, nothing is inserted |
| `Injection.InjectKeepsPoint` | debate-engine.js:138-159 | the insertion point stays in place after an injection, unless a block adds the first posts marker to a page that had none |
| `Injection.NewestFirst` | debate-engine.js:138-159 | a second injection lands right before the first block |
| `Injection.InjectPlacesPart` | debate-engine.js:146 | each part of a newline-joined block stands right after the insertion point, at its offset in the block |
| `Banner.FindMatchIsFirst` | debate-engine.js:172-175 | the search returns the match the regular expression engine replaces (leftmost, shortest lazy parts), and nothing exactly when the pattern matches nowhere |
| `Banner.FindMatch` | debate-engine.js:172-174 | the search for the pattern's first match; `FindMatchIsFirst` proves it returns the match the regular expression engine replaces |
| `Banner.FirstMatchUnique` | debate-engine.js:172 | the first match is unique |
| `Banner.UpdateReplacesFirstMatch` | debate-engine.js:174-176 | with a match, exactly the first match is replaced by the new banner, and the text on both sides is kept |
| `Banner.UpdateWithoutMatch` | debate-engine.js:179-187 | without a match, the banner is spliced in after the first main container tag; without that tag, the page is unchanged |
| `Banner.UpdateTopicBanner` | debate-engine.js:162-188 | `updateTopicBanner` with the banner inserted literally, the corrected half of the Findings row; `UpdateReplacesFirstMatch`, `UpdateWithoutMatch`, `UpdateChangesMatchedPage` and `UpdateNotIdempotent` state its properties |
| `Banner.UpdateTopicBannerAsWritten` | debate-engine.js:174-176 | `updateTopicBanner` as written, with `replace` expanding `$` patterns; `AsWrittenAgreesWithoutDollar` and `AsWrittenExpandsDollarAmp` relate it to the literal insertion |
| `Banner.BannerShowsTopic` | debate-engine.js:163-168 | the new banner shows `Week <n> • <category>` and the raw title |
| `Banner.NewBanner` | debate-engine.js:163-168 | the banner template filled in; `BannerShowsTopic` and `NewBannerMatches` state what it shows and that it matches the pattern |
| `Banner.NewBannerMatches` | debate-engine.js:163-172 | the new banner starts with a newline and matches the pattern itself |
| `Banner.UpdateChangesMatchedPage` | debate-engine.js:172-176 | an update always changes a page the pattern matches |
| `Banner.UpdateNotIdempotent` | debate-engine.js:162-188 | once a banner is in place, every further update changes the page again, because the lead before the banner lies outside the pattern |
| `Banner.AsWrittenAgreesWithoutDollar` | debate-engine.js:175 | with no `$` in the title or category, the script's `replace` inserts the banner as it is |
| `Banner.AsWrittenExpandsDollarAmp` | debate-engine.js:175 | with the title `$&` and a matching page, the script's page differs from the literal insertion |
| `Substitution.SubstitutePlain` | debate-engine.js:175 | a replacement without `$` is inserted unchanged |
| `Substitution.SubstituteMatched` | debate-engine.js:175 | `$&` in a replacement inserts the matched text |
| `Substitution.Substitute` | debate-engine.js:175 | the `$` expansion of a replacement string; `SubstitutePlain` and `SubstituteMatched` state its cases |
| `Engine.GenerateRound` | debate-engine.js:409-430 | the loop pushes the perspectives' cards in order and joins them with newlines |
| `Engine.GenerateOpeningPosts` | debate-engine.js:405-431 | the opening round is stamped `08:00` |
| `Engine.GenerateReactionPosts` | debate-engine.js:433-461 | a reaction round is stamped with the formatted slot hour |
| `Engine.RoundInOrder` | debate-engine.js:430 | each card stands at its offset in the round's block, and the next card follows after exactly one newline |
| `Engine.PostsExactlyWhenCounted` | debate-engine.js:516-583 | a branch generates posts exactly when it counts some, so the `newPosts` test never overrides `postsAdded` |
| `Engine.RoundNonEmpty` | debate-engine.js:430 | a round's block is non-empty |
| `Engine.RefereePost` | debate-engine.js:382-403 | the referee's card of the intro (and, identically, of the summary at debate-engine.js:463-497); `RefereePostReadsBack` states it |
| `Engine.RefereePostReadsBack` | debate-engine.js:402 | the referee's card opens with the `referee` class token, and its body region decodes to the answer |
| `Engine.ActionPosts` | debate-engine.js:516-565 | the `newPosts` of each branch; `PostsExactlyWhenCounted` states it is non-empty exactly when `postsAdded` is positive |
| `Engine.RunPage` | debate-engine.js:511-584 | the page a run saves: banner first, then the posts; `RunSaves` states it |
| `Engine.RunResult` | debate-engine.js:504-597 | the outcome of a run; `Run` is proved equal to it, and `RunFailsExactlyWithoutTopics`, `RunSaves` and `RunOpens` state its cases |
| `Engine.Run` | debate-engine.js:504-597 | the run fails without a topic; otherwise it saves the bannered page, with the branch's posts spliced in when the branch adds any, and reports the branch's count |
| `Engine.RunFailsExactlyWithoutTopics` | debate-engine.js:124-128 | a run fails exactly when the catalog is empty |
| `Engine.RunSaves` | debate-engine.js:504-597 | with a topic, a run saves; at a moment with nothing scheduled it saves just the bannered page; otherwise it saves the bannered page with the branch's posts injected and reports the branch's count |
| `Engine.RunAgreesWithScriptBanner` | debate-engine.js:511 | with no `$` in the title or category, the saved page is built on the script's own `replace` result |
| `Engine.RunOpens` | debate-engine.js:525-529 | on a weekday at 08:00 the saved page is the bannered page with the opening round injected, and four posts are reported |
| `Engine.RunPlacesOpening` | debate-engine.js:525-585 | on a weekday at 08:00, perspective `i`'s opening card stands right after the insertion point, at its offset in the round |
| `TestEngine.TestCardIsEngineCard` | debate-engine-test.js:80-108 | the test card is the engine's card for the lower-cased perspective |
| `TestEngine.TestCard` | debate-engine-test.js:80-108 | the test script's card; `TestCardIsEngineCard` and `TestCardNamesAuthor` state it |
| `TestEngine.TestCardNamesAuthor` | debate-engine-test.js:83-100 | a test card's class token is the lower-cased perspective, and its author is the upper-cased one |
| `TestEngine.TestCardsReadBack` | debate-engine-test.js:171-175 | card `i` of the run is post `i`'s card: its body region decodes to that post's content, and it opens with the lower-cased perspective as its class token |
| `TestEngine.FindTripleMatchIsFirst` | debate-engine-test.js:141-144 | the search returns the first match of `<div class="topic-banner">[\s\S]*?</div>\s*</div>\s*</div>`, and nothing exactly when there is none |
| `TestEngine.FindTripleMatch` | debate-engine-test.js:141-143 | the search for the test pattern's first match; `FindTripleMatchIsFirst` proves it |
| `TestEngine.FirstTripleMatchUnique` | debate-engine-test.js:141 | the first match is unique |
| `TestEngine.TestUpdateReplacesFirstMatch` | debate-engine-test.js:143-145 | with a match, the first match, its three closing tags included, is replaced by the banner, and the text on both sides is kept |
| `TestEngine.TestUpdateWithoutMatch` | debate-engine-test.js:147 | without a match the page is unchanged, since there is no fallback |
| `TestEngine.TestUpdateTopicBanner` | debate-engine-test.js:132-148 | the test script's banner update; `TestUpdateReplacesFirstMatch` and `TestUpdateWithoutMatch` state its two cases |
| `TestEngine.TestBannerShows` | debate-engine-test.js:133-138 | the test banner shows `Week <week> • Milieu` and the raw topic |
| `TestEngine.TestRunPlacesCards` | debate-engine-test.js:166-178 | card `i` stands in the saved page right after the insertion point, at its offset in the joined block |
| `TestEngine.TestRunWithoutPosts` | debate-engine-test.js:171-178 | with no posts, a lone newline is spliced in at the insertion point |
| `TestEngine.TestRunWithoutPoint` | debate-engine-test.js:110-130 | without an insertion point, the saved page is the updated page |
| `TestEngine.TestRun` | debate-engine-test.js:154-187 | the test script's run; `TestRunPlacesCards`, `TestRunWithoutPosts` and `TestRunWithoutPoint` state it |

## Left out

- Reading and writing `index.html`, loading the topics file and the test posts, and the paths: the page, the catalog and the posts are inputs, and the saved page is the outcome.
- The language model call (`callClaude`), the API key check, the prompts, the pause between calls and all logging. The answers are the parameter `answer`, in call order. The intro and summary posts differ only in their prompts, so both are `Engine.RefereePost`.
- The clock, the Amsterdam time zone and the Dutch locale. The day, hour, elapsed days, formatted date and the test script's `formatTimeFromTimestamp` are parameters.
- `Strings.Upper` and `Strings.Lower` convert ASCII letters only, where JavaScript's case mapping covers all of Unicode. Strings are sequences of characters, not UTF-16 code units.
- TestEngine.TestUpdateTopicBanner inserts the banner literally. The script's `replace` at debate-engine-test.js:144 would also expand `$` patterns in the topic, as `Banner.UpdateTopicBannerAsWritten` models for the engine.
- Engine.Run: reading `topic.title` of an undefined topic throws and ends the run before anything is saved. This is modelled as the outcome `Failed`, without the error message.
- Engine.Run: the saved page is built on `Banner.UpdateTopicBanner`, the literal banner insertion, and not on the `$`-expanding `replace` at debate-engine.js:175 (see Findings). With a `$&`, `` $` ``, `$'` or `$$` in the title or category the script saves a different page; without a `$` the two agree, as `Engine.RunAgreesWithScriptBanner` states. `Engine.RunSaves`, `Engine.RunOpens` and `Engine.RunPlacesOpening` describe the same literal-banner page.

## Findings

| source | as written | input that shows it | evidently intended | confidence | as-written member | corrected member |
|---|---|---|---|---|---|---|
| debate-engine.js:175 | `html.replace(bannerRegex, newBanner)` passes a replacement string, so `$&`, `` $` ``, `$'` and `$$` in the unescaped title or category are expanded | a topic titled `$&` on a page with a banner: the old matched banner appears where the title should be | the banner inserted literally (a replacement function, or `$` escaped as `$$`) | not executed | `Banner.UpdateTopicBannerAsWritten` (shown by `Banner.AsWrittenExpandsDollarAmp`) | `Banner.UpdateTopicBanner` (agrees whenever no `$` occurs: `Banner.AsWrittenAgreesWithoutDollar`) |
