# Verified model of the learning platform's stateful content and points operations

The platform keeps organisations, schools, curricula and learners' progress in one relational
database, and changes them by a few long operations, each of which promises a strong guarantee
over everything else that is stored. This project models those operations over finite maps
(table and primary key to row) and proves the guarantees for every database, every input, every
order and every number of runs.

Nine parts, each with a specification as functions of the stored rows, the source's loops and
methods proved to do what the specification says, and theorems about the specification:

* **Import of one organisation's content** (`ContentTables`, `ImportSpec`, `ImportTheorems`,
  `ImportGuarantees`, `OrganisationContent`, and `CountryRehoming` and `CountryGuarantees` for the
  countries of a payload). A payload replaces
  an organisation's content tree. The class deletes children first along a chain that follows both
  stored parents and ids the payload carries, refuses stray rows after the deletes, upserts, marks
  what is missing and checks countries. A refusal anywhere leaves the database as it was. Proved:
  isolation from other organisations, exactness, links at every level, what survives, what a second
  and a third import do, exactly which payloads are refused, and that country names stay unique.
* **The points ledger** (`LedgerSpec`, `LedgerTheorems`, `LedgerRuns`, `LedgerStars`, `LedgerBonus`,
  `LedgerRewards`, `LedgerMoves`, `RepeatedDelivery`, `ScoringSteps`, `ConcurrentDelivery`,
  `DeliveryAlone`, `ConcurrentStars`, `ConcurrentStarTheorems`, `ScoringRaces`, `Ledger`). Attempts and viewed items move a delta through
  a lesson, its level and its grade, clamped on the way; stars are then added row by row, outside any
  transaction. Proved: the sum invariant over every run, what each request moves, stars exactly once over
  every sequential run and the bonus exactly when a lesson was found full, repeats of a delivery erased, racing copies of a submission worth one, what stars a row holds under
  every interleaving of reads and saves and when they are exact, and exactly when a commit with an
  out-of-date read breaks the balance.
* **The retroactive recalculation** (`RecalcPlan`, `RecalcTheorems`, `RecalcRows`,
  `RecalcGuarantees`, `RecalcPlanner`, `RecalcRun`).
  A planner takes back credit no counted pass stands for; a loop applies it learner by learner,
  through failures and a lost connection. Proved: idempotence for every input, where each lesson ends
  from its parts, what levels and grades lose, and that any series of runs converges.
* **The curriculum plan** (`PlanSteps`, `ContentPlan`, `ContentPlacing`, `ContentPlanTheorems`,
  `ContentPlanRuns`, `ContentRerun`, `ContentGuarantees`, `ContentTexts`, `ContentRows`,
  `ContentAcceptance`, `ContentPlanner`). A content file and the database become
  upsert, hide and translate steps, or a refusal. Proved: every slot is written or hidden and never
  both, the pool of seven question ids never runs out, every lesson can be completed, every stored row
  and text says what the file says, exactly which runs are refused, the points rule holds of the rows
  left, and a second run is accepted and changes nothing.
* **Server grading and scoring** (`Grading`, `GradingTheorems`, `GradingVerdicts`, `ProgressRules`).
  Proved: a verified score is the grading library's, verified scores do not depend on the client's claims, repeated items change no score in enforce mode and
  exactly when they change marks in shadow mode, and where rounding to two decimals can and cannot
  decide a pass.
* **Ownership** (`Ownership`): owners are filled and never moved, whoever writes in between.
* **Who may see which content** (`ContentAccess`, `AccessGuarantees`): the guard on one id and the lists
  of a scope agree on every id of every kind, and open exactly what leads up to a curriculum in scope.
* **Batched reads** (`ActivityProgress`, `ActivityGuarantees`, `ContentTranslations`): one query for many
  rows gives each what it would have been given alone, and what that is.
* **The report's swap loops** (`ReportSort`): a stable sort, although the key is read before the swaps.

`Wrappers`, `SortedIds` and `Sums` hold an option type, ids in their sort order and sums over sets.

Ids stand already case-folded, primary keys are unique by being map keys, and a transaction is its
whole effect or none. Percentages are exact quotients rounded to hundredths.

The modules named `...Guarantees`, `ContentTexts`, `ContentRows`, `ContentAcceptance`, `GradingVerdicts`,
`LedgerBonus`, `LedgerRewards` and `LedgerMoves` say what the operations do with nothing but the rows, the
input and conditions spelled out in their own statements. No proof relies on automatic induction.

## Findings

* **An import repeated.** A second import of the same payload is accepted but is not always the
  identity: a child row taken over from a curriculum the payload leaves out keeps the columns outside
  the upsert's update list the first time and is deleted and written new the second. It is the
  identity exactly when no taken-over row had other values there
  (`ImportTheorems.SecondImportIsIdentity`, with a payload that does change a row in
  `SecondImportMayChangeARow`); from the second import on nothing changes.
* **A country renamed by the payload.** References keep their names unless a payload renames a kept
  local country while another payload country takes its old name
  (`CountryRehoming.ReferencesKeepTheirNames`, with such a payload in `ARenameBreaksAReference`).
* **A missing lesson row.** The recalculation's header says a level and a grade lose exactly what
  the lesson lost. The code takes the whole credit off them when the learner has no row for the
  lesson (scripts/lib/lesson-quiz-recalc-plan.js:180-182, 204-205). They are equal exactly when no
  such row is missing (`RecalcTheorems.LevelLosesWhatLessonsLost`, with such a learner in
  `RecalcRows.MissingRowCostsTheLevel`). The model follows the code.
* **Two first attempts at once.** `hasTried` and the old points are read before the transaction, so
  two different first attempts that both read before either commits are both credited
  (`ConcurrentDelivery.TwoFirstAttemptsAreBothCredited`). A commit keeps the balance exactly when what
  it read moves as much as what is stored would (`BalanceNeedsAFreshRead`).
* **Two scorings at once.** After its transaction a submission reads and saves the lesson, level and
  grade row one after the other, without a lock. When another scoring saves a row in between, its stars
  are undone: two first attempts at activities of two lessons can leave their level with one star
  (`ScoringRaces.OverlapLosesAStar`). Two that fill a lesson together can both decide on its bonus, and
  the level and the grade end with a star more than there are
  (`ScoringRaces.OverlapGivesABonusTwice`). Nothing is lost on a row exactly when no two scorings
  overlapped on it (`ConcurrentStars.StarsFollowScorings`,
  `ConcurrentStarTheorems.StarsAreExactExactlyWhen`).
* **A practice that is passed and shows as in progress.** The activity status counts every active
  question of a practice, the scoring only those with a template the tablet shows
  (src/business/activityprogress.business.ts:280-286, src/business/practicescore.ts:87-98). With four
  that are shown and two that are not, four right pass the practice and show 66.67 percent
  (`ActivityProgress.PassedButInProgress`).
  They disagree exactly when the best marks reach 80 percent of the second count and not of the first
  (`ActivityProgress.StatusAndScoreDisagreeWhen`).
* **A bonus a point early.** The percentage of a lesson is rounded to hundredths before it is compared
  with 100, so a lesson of 20000 points is full at 19999 (`LedgerBonus.FullAPointEarly`); with fewer
  points in all, full means all of them (`LedgerBonus.FullMeansAllPoints`).
* **Points taken back by one row and not by another.** A delta below 0 that a row does not hold is
  skipped on that row alone, so a lesson can keep points that its level and its grade lose
  (`LedgerRewards.TakingBack`). While the rows are in balance that does not happen
  (`LedgerTheorems.RewardLands`).
* **Repeats in shadow mode.** There the whole submission is scored by its claims, so a repeated item can
  raise the marks (`GradingTheorems.RepeatRaisesShadowMarks`), exactly when it claims an active question
  that no item claimed (`RepeatsChangeShadowMarksWhen`).
* **Rounding.** With 4004 active questions, 3203 marks round to 80.00 although they are less than
  four fifths (`ProgressRules.RoundingDecidesAt4004`). Below 4000 rounding never decides.

## Model

| member | source | states |
|---|---|---|
| OrganisationContent.OrganisationContentImport.Run | src/business/organisation-content.business.ts:219-322 | A run is accepted exactly when no owned row of another organisation is named, no foreign translation key repeated, no stray child carried and no country left dangling; then the database is the specified one and each table's counts are those of the rows it lost and got; a refusal leaves the database untouched. |
| OrganisationContent.OrganisationContentImport.Apply | src/business/organisation-content.business.ts:242-322 | The steps in the source's order, each on the rows the one before left, end in the specified database or stop at the first refusal. |
| OrganisationContent.OrganisationContentImport.ChainOf | src/business/organisation-content.business.ts:576-593 | The ids it collects per table are exactly those reached from the seeds by stored parents, for both uses of the chain. |
| OrganisationContent.OrganisationContentImport.AbsentFromPayload | src/business/organisation-content.business.ts:595-605 | The takeover sets are, table by table, exactly the rows at or under a root this organisation owns and the payload lacks. |
| OrganisationContent.OrganisationContentImport.DeleteContent | src/business/organisation-content.business.ts:276-282 | Deleting children first by parent ids collected beforehand removes exactly the doomed rows, and each removed row is counted once. |
| OrganisationContent.OrganisationContentImport.DeleteCurriculumChildren | src/business/organisation-content.business.ts:612-631 | After the thirteen deletes the rows under the payload's curricula and under every carried parent are gone, and no other. |
| OrganisationContent.OrganisationContentImport.RefuseStrayChildren | src/business/organisation-content.business.ts:645-671 | Run after the deletes, it refuses exactly when some payload child row is still here outside the takeover sets. |
| OrganisationContent.OrganisationContentImport.RefuseRowsOfOtherOrganisations | src/business/organisation-content.business.ts:486-522 | It refuses exactly when the payload names an owned row another organisation has, or repeats the natural key of its translation. |
| OrganisationContent.OrganisationContentImport.TranslationsOfOthers | src/business/organisation-content.business.ts:528-552 | It finds a translation of another organisation under a payload key exactly when there is one. |
| OrganisationContent.OrganisationContentImport.WritePayload | src/business/organisation-content.business.ts:284-310 | Table by table and chunk by chunk, every payload row and no other is upserted, once. |
| OrganisationContent.OrganisationContentImport.MarkMissing | src/business/organisation-content.business.ts:745-756 | Exactly the rows of this organisation that the payload lacks are marked deleted, and counted. |
| OrganisationContent.OrganisationContentImport.CheckCountryReferences | src/business/organisation-content.business.ts:357-395 | It refuses exactly when a written school holds a country id that is not here. |
| ImportTheorems.ReachedForeignIsRefused | src/business/organisation-content.business.ts:486-552 | Whatever foreign row the delete chain reaches, its topmost carried ancestor is either a named foreign root or a stray, so the payload is refused. |
| ImportTheorems.ImportIsIsolated | src/business/organisation-content.business.ts:242-322 | After every accepted import everything held for other organisations, and everything stored below their curricula and schools, is row for row what it was, with nothing added. |
| ImportTheorems.ImportIsExact | src/business/organisation-content.business.ts:268-310 | Below every row the payload carries, in every child table, there are exactly the payload's rows. |
| ImportTheorems.ImportedRowIsThePayloads | src/business/organisation-content.business.ts:284-310 | A payload row is stored as the payload has it, but for the kept columns of a child taken over from an absent root. |
| ImportTheorems.ImportKeepsLinks | src/business/organisation-content.business.ts:268-310 | If every child had its parent before, every child has its parent after, through deletes that remove parents too. |
| ImportTheorems.AbsentContentSurvives | src/business/organisation-content.business.ts:264-271 | A row of a curriculum or school the payload leaves out survives unchanged exactly when neither it nor a row above it is carried. |
| ImportTheorems.AbsentRootIsMarked | src/business/organisation-content.business.ts:313-314 | An absent school or curriculum stays, marked deleted and otherwise as it was. |
| ImportTheorems.TranslationKeysStayUnique | src/business/organisation-content.business.ts:528-552 | Writing translations by primary key never produces two rows of one natural key. |
| ImportTheorems.CountryCheckNeverRefuses | src/business/organisation-content.business.ts:357-395 | A payload closed over its countries is never refused by the last check. |
| ImportTheorems.ImportIsAcceptedAgain | src/business/organisation-content.business.ts:242-322 | An accepted payload is accepted again by the database it left. |
| ImportTheorems.ReachedAfterImport | src/business/organisation-content.business.ts:576-593 | After an import the chain from the carried ids reaches the carried rows and nothing else. |
| ImportTheorems.SecondImportIsIdentity | src/business/organisation-content.business.ts:645-671 | A second import changes nothing exactly when no taken-over row held other values outside the update list. |
| ImportTheorems.SecondImportMayChangeARow | src/business/organisation-content.business.ts:284-310 | A valid, accepted payload that moves a grade from an absent curriculum: the first import keeps a column the second one writes. |
| ImportTheorems.ThirdImportChangesNothing | src/business/organisation-content.business.ts:242-322 | From the second import on, importing is the identity. |
| ImportGuarantees.OthersRowsStay | src/business/organisation-content.business.ts:202-322 | After every accepted import each school, curriculum, question, document, subject and translation stored under another owner, and every row stored below its schools and curricula, is as it was and was not in the payload; the tables and links are listed in the statement. |
| ImportGuarantees.NamingOthersRowsIsRefused | src/business/organisation-content.business.ts:486-522 | A payload that carries one of those rows is refused. |
| ImportGuarantees.RefusedExactly | src/business/organisation-content.business.ts:486-671 | A valid payload is refused exactly when it carries another organisation's row, repeats its translation, or carries a row stored below nothing carried and nothing of the organisation's own that it leaves out. |
| ImportGuarantees.OwnRowsLeftOutAreGone | src/business/organisation-content.business.ts:276-282 | The organisation's own questions, documents, subjects and translations that the payload lacks are gone. |
| ImportGuarantees.OwnRootsLeftOutAreMarked | src/business/organisation-content.business.ts:313-314 | Its own schools and curricula that the payload lacks are kept, marked deleted and otherwise as they were. |
| ImportGuarantees.WrittenRowsAreOwned | src/business/organisation-content.business.ts:284-310 | Every payload row is stored with the payload's parent, country and columns; those of the six owned tables end owned by the organisation, all others by nobody. |
| ImportGuarantees.OnlyPayloadRowsHangBelow | src/business/organisation-content.business.ts:268-310 | Over each of the fourteen links, only rows of the payload hang below a row of the payload. |
| ImportGuarantees.CarriedFromElsewhere | src/business/organisation-content.business.ts:595-671 | A row that is stored below rows the payload does not carry is accepted only if a school or curriculum of the organisation itself is above it. |
| CountryRehoming.MatchCountriesByName | src/business/country-rehoming.ts:88-109 | The loop answers, for every payload name, which local countries share it and which payload name stands for its class, for any equivalence of names. |
| CountryRehoming.RehomeCountriesByName | src/business/country-rehoming.ts:111-152 | It is refused exactly on an ambiguous name, and otherwise gives the specified rows, no id twice, and replacements. |
| CountryRehoming.KeeperIsTheFirst | src/business/country-rehoming.ts:114-122 | The row kept for a class of new names is its first live one, and its first one when none is live. |
| CountryRehoming.KeeperIsOfItsClass | src/business/country-rehoming.ts:114-122 | A class that has a row keeps one of its own, live if any of its rows is. |
| CountryRehoming.EveryReferenceIsWritten | src/business/country-rehoming.ts:117-151 | The id every payload country resolves to is a written row, so no rewritten reference dangles. |
| CountryRehoming.NamesStayUnique | src/business/country-rehoming.ts:111-152 | With pairwise different local names and distinct payload ids, names are pairwise different after every prefix of the upserts, so the unique key never fires. |
| CountryRehoming.UniqueNamesAreNeverAmbiguous | src/business/country-rehoming.ts:131-133 | While local names are unique the import is never refused as ambiguous. |
| CountryRehoming.ReferencesKeepTheirNames | src/business/country-rehoming.ts:123-151 | Every reference resolves to a country of the name it had, exactly when no payload country renames a kept one away. |
| CountryRehoming.RenamedReferenceIsWrong | src/business/country-rehoming.ts:130-135 | Under any rename one of the two references it touches resolves to a country of another name. |
| CountryRehoming.ARenameBreaksAReference | src/business/country-rehoming.ts:130-135 | With unique local names and distinct ids, a payload that renames the local country and names another one as it was called leaves a reference to a country of another name. |
| CountryGuarantees.RefusedExactly | src/business/country-rehoming.ts:131-133 | A payload is refused exactly when two local rows bear the name of one of its countries and neither is that country's own. |
| CountryGuarantees.LocalNameTakesItsRow | src/business/country-rehoming.ts:129-135 | A country whose name another local row bears takes that row's id. |
| CountryGuarantees.OwnNameKeepsItsId | src/business/country-rehoming.ts:128-130 | A country whose own row here bears its name keeps its id. |
| CountryGuarantees.NewNameGoesToTheKept | src/business/country-rehoming.ts:114-142 | A name new here goes to the first live payload country of that name, or to its first when none is live, and that one is written. |
| CountryGuarantees.EveryRowIsOwnOrRevived | src/business/country-rehoming.ts:123-150 | Every written row is a payload country as it is, or a local row with the name and usage it had, live. |
| CountryGuarantees.ReplacingRowEndsLive | src/business/country-rehoming.ts:134-136 | A local row that stands in for a payload country ends live with its stored name and usage, deleted before or not. |
| CountryGuarantees.OwnRowEndsAsGiven | src/business/country-rehoming.ts:123-150 | A country written as it is ends as the payload has it when no other entry bears its row's name. |
| Ledger.StudentLedger.UpdateUserReward | src/business/lesson.business.ts:495-594 | From any rows, the lesson, level and grade end as specified: a delta below 0 skipped, the lesson kept under its total, only what landed passed on. |
| Ledger.StudentLedger.UpdateLevelQuizReward | src/business/lesson.business.ts:596-649 | The level and the grade end as specified and no lesson row changes. |
| Ledger.StudentLedger.AddStudentScores | src/business/lesson.business.ts:1598-1646 | The stars of the three rows rise together, with one more the first time the lesson is full. |
| Ledger.StudentLedger.AddStudentLevelQuizScores | src/business/lesson.business.ts:1648-1676 | The stars of level and grade rise together, with one more for the first attempt at the quiz. |
| Ledger.StudentLedger.GetNewestAttempt | src/business/result.business.ts:428-433 | The attempt found is the one of the latest start, or none when there is no attempt. |
| Ledger.StudentLedger.GetFirstPass | src/business/result.business.ts:420-426 | The pass found is the counted one of the earliest start. |
| Ledger.StudentLedger.StoreAttempt | src/business/result.business.ts:288-331 | The transaction creates the row only for a new key and moves points only when it created it, by what was read before. |
| Ledger.StudentLedger.CreateProgress | src/business/result.business.ts:259-357 | A submission of a stored key changes nothing; a new one is stored, rewarded and scored as specified. |
| Ledger.StudentLedger.RepayPass | src/modules/result/result.controller.ts:187-212 | After a pass nothing is stored; the pass takes the current points and the difference moves. |
| Ledger.StudentLedger.Submit | src/modules/result/result.controller.ts:182-272 | A whole request is the specified function of the stored rows, by whether the activity is passed. |
| Ledger.StudentLedger.UpdateLearningProgress | src/business/lesson.business.ts:165-262 | A report on a learning item leaves the specified rows, points and stars. |
| LedgerTheorems.MovedBalances | src/business/lesson.business.ts:546-591 | A delta on an activity's credit, its lesson, its level and its grade keeps all three sums. |
| LedgerTheorems.RewardLands | src/business/lesson.business.ts:532-540 | While the rows balance and totals cover what activities are worth, no clamp fires: the whole delta lands on all three rows. |
| LedgerTheorems.RowsCarryCredit | src/business/lesson.business.ts:495-594 | The lesson, level and grade of an activity each hold at least its credit. |
| LedgerRuns.SnapshotIsCredit | src/business/result.business.ts:409-417 | In order, the points a request reads as old are the credit the activity holds, and no movement means equal points. |
| LedgerRuns.StepKeeps | src/business/result.business.ts:259-357 | Every allowed submission or report keeps balance, shape, worth and the pass as newest attempt. |
| LedgerRuns.InOrderRunBalances | src/business/lesson.business.ts:495-649 | Over every run whose submissions come in start order, repeats at any time, each lesson holds the sum of its activities' credits, each level its lessons' and its quiz's, each grade its levels'. |
| LedgerStars.RunStarsAreExact | src/business/lesson.business.ts:1598-1676 | Over every run, in any order and with any repeats, the stars of every row are the scores of the attempt rows below it and the bonuses given, each once. |
| LedgerStars.CommitOwes | src/business/result.business.ts:296-317 | Whatever a transaction read before, a row it creates owes its scores once and disturbs no other star. |
| LedgerStars.StarsPay | src/business/result.business.ts:350-354 | Scoring pays what was owed, once, on lesson, level and grade. |
| LedgerBonus.LessonScoringAdds | src/business/lesson.business.ts:1598-1646 | Scoring an activity of a lesson adds exactly its scores to the lesson, level and grade, and one star more to each exactly when the lesson had no bonus yet and 20000 times its points are at least 19999 times its total (with a total of 0, when it holds any); the lesson then has it, and nothing else changes. |
| LedgerBonus.QuizScoringAdds | src/business/lesson.business.ts:1648-1676 | Scoring a level's quiz adds exactly its scores to the level and its grade, and one star more the first time. |
| LedgerBonus.FullMeansAllPoints | src/business/lesson.business.ts:1619-1620 | For a lesson of less than 20000 points, full means that it holds them all. |
| LedgerBonus.FullAPointEarly | src/business/lesson.business.ts:1619-1620 | At 19999 of 20000 points a lesson counts as full. |
| LedgerBonus.BonusExactlyWhenFull | src/business/lesson.business.ts:1614-1623 | Over every run a lesson has its bonus exactly when it had it at first or some scoring found it full. |
| LedgerRewards.EarningPassesUp | src/business/lesson.business.ts:532-591 | What a lesson earns lands whole or fills it to its total, and its level and grade rise by as much as it did. |
| LedgerRewards.TakingBack | src/business/lesson.business.ts:520-591 | What is taken back comes whole off each of lesson, level and grade that holds as much, and not at all off one that does not, each on its own. |
| LedgerRewards.QuizPassesUp | src/business/lesson.business.ts:596-649 | A level's quiz moves its level and grade by the whole amount, each unless it would go below 0, and no lesson. |
| LedgerRewards.AttemptHolds | src/business/result.business.ts:259-317 | A new attempt is stored with the activity's points, or none when the pass rule is on and it failed, and no other attempt changes. |
| LedgerRewards.PassHoldsCurrentPoints | src/modules/result/result.controller.ts:187-212 | After a request for a passed activity its first pass holds the current points and no attempt came, went or changed. |
| LedgerMoves.FirstAttemptMoves | src/business/result.business.ts:278-331 | A first attempt moves the activity's points up its rows, and under the pass rule none when it failed. |
| LedgerMoves.LaterAttemptMoves | src/business/result.business.ts:278-331 | A later attempt moves what it earns less what the latest stored attempt holds; a failed one under the pass rule that started before that one moves nothing. |
| LedgerMoves.RequestAfterPassMoves | src/modules/result/result.controller.ts:187-212 | After a counted pass, with the pass rule, a request moves the current points less what the earliest counted pass holds. |
| LedgerMoves.UnruledRequestAfterPassMoves | src/modules/result/result.controller.ts:187-212 | Without it, less what the latest attempt holds. |
| LedgerMoves.ReportStores | src/business/lesson.business.ts:165-262 | A report counts a viewing when it reached the end, and the item holds its points from the first viewing on. |
| LedgerMoves.ReportMoves | src/business/lesson.business.ts:165-262 | A report moves what the item holds after it less what it held before. |
| RepeatedDelivery.RepeatsAreErased | src/business/result.business.ts:293-357 | For every run in any order, attempts, points and stars are those of the run with repeated keys erased, while no activity changes its points. |
| RepeatedDelivery.RepayIsIdentity | src/modules/result/result.controller.ts:187-212 | A delivery after a pass changes nothing when the points have not changed. |
| ConcurrentDelivery.EveryRowHasOneCreator | src/business/result.business.ts:295-350 | Under every interleaving of requests each new attempt row has exactly one creator, and no row is lost. |
| ScoringSteps.AloneIsAddStars | src/business/lesson.business.ts:1598-1676 | The reads and saves of a scoring, with nobody in between, are together the scoring of the sequential ledger. |
| ConcurrentStars.StarsFollowScorings | src/business/lesson.business.ts:1598-1676 | At every moment of every interleaving of reads and saves a row holds what it held and what the scorings that saved it gave, less what overlapping saves undid: never more, all of it exactly when the undone ones gave nothing, and nothing undone exactly when none overlapped on it. |
| ConcurrentStarTheorems.LessonNeverExceeds | src/business/lesson.business.ts:1614-1627 | At every moment of every interleaving a lesson's stars are at most its attempts' scores and its bonus, short of them by the scores of the attempts it does not hold. |
| ConcurrentStarTheorems.StarsAreExactExactlyWhen | src/business/result.business.ts:350-354 | When all requests are through, all stars are exact if no two scorings overlapped on a row, and only then when each stored attempt earned a star. |
| ScoringRaces.OverlapLosesAStar | src/business/lesson.business.ts:1628-1635 | Two first attempts at one level, both scorings reading the level before either saves it, leave it one star for the two its lessons hold. |
| ScoringRaces.OverlapGivesABonusTwice | src/business/lesson.business.ts:1614-1643 | Two first attempts that fill a lesson, both scorings reading it full before either saves it, give level and grade four stars where scores and bonus are three. |
| ConcurrentDelivery.CopiesAreOneSubmission | src/business/result.business.ts:293-354 | However copies of one submission interleave, reads, commits and scoring in any order, they leave what one alone leaves. |
| ConcurrentDelivery.BatchesAreOneRun | src/business/result.business.ts:293-354 | When only copies of one submission overlap, any series of deliveries ends as the sequential run that delivers each once. |
| DeliveryAlone.AloneIsSubmitted | src/modules/result/result.controller.ts:182-272 | A request that takes all its turns with nobody in between, its four reads, its transaction and its scoring row by row, or its repayment, leaves what the submission leaves as one step, whatever the rows hold. |
| ConcurrentDelivery.BalanceNeedsAFreshRead | src/business/result.business.ts:278-317 | A creating commit keeps the balance exactly when what it read before moves as much as what is stored would. |
| ConcurrentDelivery.TwoFirstAttemptsAreBothCredited | src/business/result.business.ts:278-317 | Two first attempts that both read before either commits leave the lesson with the points of both and out of balance. |
| RecalcPlanner.GroupByQuiz | scripts/lib/lesson-quiz-recalc-plan.js:106-107 | Each quiz gets exactly its own attempts, in the order they came. |
| RecalcPlanner.NewestOf | scripts/lib/lesson-quiz-recalc-plan.js:32-33 | The attempt taken comes before every other by start time and then id, whatever the row order. |
| RecalcPlanner.PlanQuiz | scripts/lib/lesson-quiz-recalc-plan.js:109-165 | The outcome, the rows to zero and the points that count are those of the set of the quiz's attempts. |
| RecalcPlanner.PlanQuizzes | scripts/lib/lesson-quiz-recalc-plan.js:109-166 | The sums per lesson are the credit held and kept over all quizzes, each zeroed row listed once, each quiz in one counter. |
| RecalcPlanner.PlanLessons | scripts/lib/lesson-quiz-recalc-plan.js:168-206 | The updates are one per lesson that changes, and the losses passed up are the sums over its lessons. |
| RecalcPlanner.PlanLearner | scripts/lib/lesson-quiz-recalc-plan.js:96-245 | For any order of the rows the plan is the one of their set; the five outcome counters add up to the quizzes and the zero counter to the zeroed rows. |
| RecalcTheorems.OutcomeIsKept | scripts/lib/lesson-quiz-recalc-plan.js:116-158 | Writing a plan changes no quiz's outcome. |
| RecalcTheorems.SecondPlanIsEmpty | scripts/lib/lesson-quiz-recalc-plan.js:96-248 | For every input, planning again after a plan was written plans nothing. |
| RecalcTheorems.PassesAreNeverZeroed | scripts/lib/lesson-quiz-recalc-plan.js:118-129 | A zeroed row failed, held points, and is of a quiz that was not left alone. |
| RecalcTheorems.LessonEndsAt | scripts/lib/lesson-quiz-recalc-plan.js:184-187 | A lesson ends at the larger of what is left of it and what its other parts add up to within it. |
| RecalcTheorems.LessonEndsExactly | scripts/lib/lesson-quiz-recalc-plan.js:184-187 | A lesson that held its other parts and the failed credit as far as they fitted its total ends at its other parts as far as they fit. |
| RecalcGuarantees.LessonEndsByItsParts | scripts/lib/lesson-quiz-recalc-plan.js:109-206 | After a plan is written a lesson row holds its old points less the failed credit, but no less than its practice, its learning and its quizzes' counted credit add up to, as far as it held that: the credit of a quiz is read off its attempts (the oldest counted pass, the newest attempt where there is only an uncounted pass, the newest attempt of a quiz without a pass failing); where something failed it is completed exactly when its mark is reached. |
| RecalcGuarantees.EveryLessonHasParts | scripts/lib/lesson-quiz-recalc-plan.js:109-166 | Every lesson of every learner has such amounts, one for each quiz. |
| RecalcGuarantees.FailedCreditComesOffWhole | scripts/lib/lesson-quiz-recalc-plan.js:184-187 | A learner with 75 points, 3 of them from the practice, 20 from the learning and 7 from a passed quiz, and 40 from a failed one: 35 stay. |
| RecalcGuarantees.LessonStopsAtItsParts | scripts/lib/lesson-quiz-recalc-plan.js:184-187 | The same learner with 60 points: only 30 come off, down to the three other parts. |
| RecalcGuarantees.OutcomeIs | scripts/lib/lesson-quiz-recalc-plan.js:116-158 | What becomes of a quiz, from its attempts and the content: a counted pass, only an uncounted one, content missing, a total without a percentage, or none of these. |
| RecalcGuarantees.ZeroedExactly | scripts/lib/lesson-quiz-recalc-plan.js:118-165 | Exactly the failed attempts that hold points are zeroed, of the quizzes with a counted pass and of those without a pass whose content and totals are usable; every other attempt is as it was. |
| RecalcTheorems.LessonRowAfter | scripts/lib/lesson-quiz-recalc.js:93-97 | After the write the learner's lesson row holds the planned points and completion. |
| RecalcTheorems.LevelLosesWhatLessonsLost | scripts/lib/lesson-quiz-recalc-plan.js:176-206 | A level loses what its lessons' rows lost exactly when the learner has a row for each lesson something comes off, and more otherwise. |
| RecalcRows.MissingRowCostsTheLevel | scripts/lib/lesson-quiz-recalc-plan.js:180-205 | A learner with a failed attempt of five points and no row for its lesson: the level loses five and its lessons nothing. |
| RecalcRows.LevelRowAfter | scripts/lib/lesson-quiz-recalc-plan.js:209-228 | For every input, after the write a level row has lost the sum of its lessons' reductions, down to 0 at most, with its percentage and completion computed again; no other level row changes. |
| RecalcRows.GradeRowAfter | scripts/lib/lesson-quiz-recalc-plan.js:209-231 | The same of every grade row. |
| RecalcRows.EveryUpdateChangesARow | scripts/lib/lesson-quiz-recalc-plan.js:191-231 | No update is planned that would leave its row as it is. |
| RecalcTheorems.PlanConservesLosses | scripts/lib/lesson-quiz-recalc-plan.js:202-205 | Every grade loses the sum of what its levels lose. |
| RecalcRun.WritePlan | scripts/lib/lesson-quiz-recalc.js:84-98 | The statements together leave the specified rows, no pass touched. |
| RecalcRun.WrittenIsSettled | scripts/lib/lesson-quiz-recalc.js:152-153 | Whatever order the rows were read in, the learner ends with the same rows. |
| RecalcRun.Recalculation.Run | scripts/lib/lesson-quiz-recalc.js:143-199 | Whatever fails, exactly the learners whose transaction committed are settled and the others unchanged; seen and not reached add up to the roster; the exit code tells a failure. |
| RecalcRun.CommittedAre | scripts/lib/lesson-quiz-recalc.js:145-169 | The learners that are settled are those whose transaction commits and that no lost connection comes before. |
| RecalcRun.FailedAre | scripts/lib/lesson-quiz-recalc.js:145-169 | The learners counted as failed are those that were reached and did not commit, the one that lost the connection among them. |
| RecalcRun.RunsSettleTheCommitted | scripts/lib/lesson-quiz-recalc.js:145-169 | Any series of runs settles exactly the learners that committed in one of them. |
| RecalcRun.RunsConverge | scripts/lib/lesson-quiz-recalc.js:145-169 | A series of runs ends as one clean run exactly when each learner committed once or had nothing to change. |
| RecalcRun.LaterRunChangesNothing | scripts/lib/lesson-quiz-recalc.js:197 | Once every learner committed, no later run changes anything. |
| PlanSteps.ApplyAt | scripts/lib/dcrs-content-apply.js:191-201 | With distinct targets each step has its whole effect, whatever the others do. |
| PlanSteps.ApplyTwice | scripts/lib/dcrs-content-plan.js:991-1012 | Applying the steps again at a later moment changes nothing, `lastupdated` included, and no statement affects a row. |
| ContentPlacing.InOrderKeeps | scripts/lib/dcrs-content-plan.js:592 | The live lessons are the file's in ascending order and draw as much from the pool. |
| ContentPlacing.QuestionsFit | scripts/lib/dcrs-content-plan.js:688-699 | The seven-id pool never runs out: every assigned question id and join place is one of the module's and used once. |
| ContentPlanRuns.EverySlotIsWrittenOrHidden | scripts/lib/dcrs-content-plan.js:756-947 | Each lesson slot, question id and join row of the module is written by the plan or hidden by it, never both, and no other is touched. |
| ContentPlanRuns.PlanIsDistinct | scripts/lib/dcrs-content-plan.js:625-947 | No row and no translation key is the target of two steps of a plan. |
| ContentRerun.WrittenRow | scripts/lib/dcrs-content-apply.js:191-201 | A row the plan writes ends with all its values when new and with the update list's when it was there. |
| ContentRerun.UntouchedRow | scripts/lib/dcrs-content-plan.js:928-947 | A row the plan neither writes nor hides, another module's for one, is as it was. |
| ContentRerun.NumbersAreTheSame | scripts/lib/dcrs-content-plan.js:611-623 | The level switch and the level's and grade's points computed from the rows a run leaves are those it wrote. |
| ContentRerun.AcceptedAgain | scripts/lib/dcrs-content-plan.js:595-754 | The same file and flags are refused for nothing against the rows the run left: names, question meaning, pass marks, required rows, owners. |
| ContentRerun.RerunChangesNothing | scripts/lib/dcrs-content-apply.js:175-209 | For every accepted run, running again goes ahead, changes no row and no moment, and reports no statement that did. |
| ContentRerun.EveryLessonCanBeCompleted | scripts/lib/dcrs-content-plan.js:219-249 | After an accepted run every lesson of the file with a finite mark can reach it with the file's sets, and a new one has such a mark. |
| ContentRerun.PointsAreTheSums | scripts/lib/dcrs-content-plan.js:611-623 | Of the rows left, the level's points are the totals of its lessons that are not hidden and its countable quiz, the grade's those of its live levels. |
| ContentGuarantees.EveryQuestionIsAsked | scripts/lib/dcrs-content-plan.js:836-905 | Each question of the file is asked where the file has it: the join row of its lesson, set and place is on, belongs to that set of that lesson, has order place + 1 and asks a question row with the text, the options in order and the flag on the correct one. |
| ContentGuarantees.NoOtherQuestionIsAsked | scripts/lib/dcrs-content-plan.js:934-945 | Every other join row of the module that is there is off and otherwise as it was, and none is added. |
| ContentGuarantees.UnusedQuestionIsDeleted | scripts/lib/dcrs-content-plan.js:946-947 | A question id of the module that no join row asks is deleted and otherwise as it was. |
| ContentGuarantees.PlaceLeftOutIsOff | scripts/lib/dcrs-content-plan.js:928-933 | At a place of the module without a lesson in the file the lesson and its document are deleted and the three parts off, all otherwise as they were. |
| ContentTexts.HeadTextsAreStored | scripts/lib/dcrs-content-plan.js:907-926 | The names of the programme, its grade and the module are stored as the file's Khmer with the hash of its English; a text that was there keeps its owner, and its moment unless it changed. |
| ContentTexts.LessonNamesAreStored | scripts/lib/dcrs-content-plan.js:907-926 | So is each lesson's name, under the lesson and each of its three parts. |
| ContentTexts.QuestionTextsAreStored | scripts/lib/dcrs-content-plan.js:875-926 | So are each question's text and heading, every option, and each message it has. |
| ContentRows.HeadRowsSay | scripts/lib/dcrs-content-plan.js:625-685 | The rows of the programme, its grade and the module hold the file's names and the columns a new row gets; rows that were there keep all but the columns listed for Module 1 or a later module, the module its switch without a flag. |
| ContentRows.EveryLessonIsStored | scripts/lib/dcrs-content-plan.js:756-797 | Each lesson has its row with the file's name and order, on and not deleted, keeping its points and mark when it was there; and its document, unless its video is kept, which leaves the document alone. |
| ContentRows.EveryPartIsStored | scripts/lib/dcrs-content-plan.js:798-842 | Each lesson's learning step, practice and quiz have their rows, the learning step on, the others on exactly when they have a question. |
| ContentRows.QuestionRowSays | scripts/lib/dcrs-content-plan.js:861-882 | A stored question has the file's messages; a new one is the run's owner's and one that was there keeps the rest of its row. |
| ContentRows.MeaningIsNeverChanged | scripts/lib/dcrs-content-plan.js:701-735 | A question that was there and was no seed placeholder keeps its number of options and its first correct one and is not asked in a kind of set it was not in. |
| ContentRows.PoolIsDealtInOrder | scripts/lib/dcrs-content-plan.js:688-699 | The seven fixed ids are dealt in the order of the lessons, practice before quiz; every other question has its own place's id. |
| ContentAcceptance.AcceptedExactly | scripts/lib/dcrs-content-plan.js:542-754 | A run goes ahead exactly when the file is sound, Module 1 is not drafted, a new module is given a switch, and no stored name, question, mark, missing row or owner stands in the way, each condition spelled out over the file and the rows. |
| ContentAcceptance.ValidIsSound | scripts/lib/dcrs-content-plan.js:358-497 | The files that pass are those with lessons in the module's places, none of one order or place, up to four questions a set with two to eight options and one correct each, drawing at most seven fixed ids together. |
| ContentAcceptance.EveryQuestionHasItsId | scripts/lib/dcrs-content-plan.js:688-699 | A question of a fixed lesson is stored and asked under the id of as many as the earlier lessons draw and come before it in its own; any other under its place's. |
| ContentAcceptance.PointsAreSums | scripts/lib/dcrs-content-plan.js:611-623 | After an accepted run the level is worth the totals of its lessons that are there and its quiz while it has an active question, the grade the levels that are on and not deleted. |
| ContentPlanner.ValidateContent | scripts/lib/dcrs-content-plan.js:358-497 | The loop accepts exactly the files whose slots, orders and sets are in range, none used twice, and whose pooled questions fit the seven ids. |
| ContentPlanner.PlaceQuestions | scripts/lib/dcrs-content-plan.js:688-699 | The running counter gives each fixed lesson the pool ids after those of the lessons before it. |
| ContentPlanner.SiblingPoints | scripts/lib/dcrs-content-plan.js:621-623 | The loop adds up the points of the grade's other live levels, each once. |
| ContentPlanner.PlanContent | scripts/lib/dcrs-content-plan.js:542-988 | There is a plan exactly when nothing of the file, the flags or the rows refuses the run, and it is the specified one. |
| ContentPlanner.Applier.ApplyPlan | scripts/lib/dcrs-content-apply.js:175-209 | The database ends as the steps in order leave it, and inserted, updated and hidden count exactly the steps that changed something. |
| Grading.GradeSubmissionItems | src/business/gradesubmission.ts:124-189 | Every item is kept and graded; the scoring items are the first for each question in the order submitted; verified exactly when, in enforce mode, every active question's first item is gradable. |
| GradingTheorems.CorrectByFirst | src/business/gradesubmission.ts:168-170 | In enforce mode a question is correct exactly when its first item is. |
| GradingTheorems.VerifiedIgnoresClaims | src/business/gradesubmission.ts:172-177 | Whether a submission is verified does not depend on the claims in it. |
| GradingTheorems.VerifiedScoreIsTheServers | src/business/quizscore.ts:155-178 | A verified score is one mark for each active question whose first item the server graded correct. |
| GradingTheorems.VerifiedScoreIgnoresClaims | src/business/gradesubmission.ts:97-113 | Two submissions that differ only in claims have the same marks, percentage and pass when verified. |
| GradingTheorems.ClaimsMatterExactlyWhen | src/business/gradesubmission.ts:50-113 | In enforce mode claims can change the correct questions exactly when some active question's first item leaves the server nothing to go by. |
| GradingTheorems.RepeatsChangeNoScore | src/business/gradesubmission.ts:130-188 | However many items are added after the first for their question, in either mode, scoring items and the verified flag stay and every item is kept; in enforce mode the score of a quiz and of a practice stays. |
| GradingTheorems.RepeatsChangeShadowMarksWhen | src/modules/result/result.controller.ts:133-138 | In shadow mode repeats take no mark away, and change the marks exactly when one claims an active question no submitted item claims. |
| GradingTheorems.RepeatRaisesShadowMarks | src/modules/result/result.controller.ts:237-241 | In shadow mode a wrong item followed by a repeat that claims its question goes from 0 marks to 1. |
| GradingTheorems.MarksAtMostActive | src/business/practicescore.ts:97-103 | Whatever is submitted, in either mode, there are no more marks than active questions. |
| GradingVerdicts.VerifiedScoreIsTheLibrarys | src/business/gradesubmission.ts:50-113 | A verified score is one mark for each active question whose first answer has the shape of one and was graded correct by the library, out of all active questions. |
| GradingVerdicts.VerifiedMeansGraded | src/business/gradesubmission.ts:172-177 | A submission is verified exactly when, in enforce mode, the first item of every active question was graded by the library, correct or not. |
| GradingVerdicts.MarkOf | src/business/gradesubmission.ts:50-113 | In enforce mode a question is correct exactly when its first answer was graded correct, or the library has nothing to say of it and it claims so. |
| GradingVerdicts.BadAnswerEarnsNothing | src/business/gradesubmission.ts:60-73 | An answer of no shape, malformed or of another type earns no mark whatever is claimed. |
| GradingVerdicts.UnknownAnswerIsTheClaims | src/business/gradesubmission.ts:56-78 | With no answer, or a verdict that is none, the mark is the claim's. |
| GradingVerdicts.StoredItemIs | src/business/gradesubmission.ts:50-113 | Each stored item is the submitted one with the library's verdict on it, in shadow mode correct by its claim, in enforce mode by the verdict where there is one. |
| ProgressRules.RoundedReaches80 | src/business/quizscore.ts:49-50 | The rounded percentage reaches 80 exactly when the exact quotient is within half a hundredth of it or above. |
| ProgressRules.RoundingNeverDecidesBelow4000 | src/business/quizscore.ts:45-51 | Below 4000 questions a pass is exactly four fifths. |
| ProgressRules.RoundingDecidesAt4004 | src/business/quizscore.ts:45-51 | At 4004 questions rounding passes an attempt that has less than four fifths. |
| ProgressRules.PassIsAStar | src/business/result.business.ts:435-456 | A quiz passes exactly when its percentage earns a star. |
| ProgressRules.StarsAreByMarks | src/business/result.business.ts:435-456 | A quiz earns one star from 79.995 percent of the active questions, two from 90.995, three, the most, from 95.995. |
| ProgressRules.FallbackPassMark | src/business/progress-rules.ts:18-27 | Without a mark of its own a lesson's mark is the least whole number of points that is four fifths of its total. |
| Ownership.OwnedTable.ApplyTable | src/business/ownership.business.ts:238-303 | Whatever the chunks and whoever fills rows between the read and the update, exactly the requested rows still free are filled, and applied, disagreeing and unknown are counted. |
| Ownership.OwnersAreKept | src/business/ownership.business.ts:288-298 | A row that has an owner, or gains one meanwhile, keeps it. |
| Ownership.SecondCallFillsNothing | src/business/ownership.business.ts:288-298 | A second identical call finds nothing to fill. |
| Ownership.EveryIdIsAccountedFor | src/business/ownership.business.ts:264-301 | Every requested id is filled, agrees, disagrees or is unknown, and only one of these. |
| ContentAccess.GuardAgreesWithLevels | src/business/content-access.ts:332-385 | Content below a level can be opened exactly when it is under a level the lists show, and a document only if it is the organisation's own as well. |
| ContentAccess.GuardAgreesAboveLevels | src/business/content-access.ts:332-375 | A curriculum and a grade can be opened exactly when they are listed, baseline content exactly when its curriculum is. |
| ContentAccess.AccessIsOwnedAndCurrent | src/business/content-access.ts:251-311 | Whatever can be opened belongs to a curriculum the token's organisation owns and that the learner, or the school, has now. |
| ContentAccess.ContentIsOneOrganisations | src/business/content-access.ts:332-356 | No content, a document used by several organisations included, can be opened with tokens of two organisations. |
| ContentAccess.EnrolledIsInScope | src/business/content-access.ts:318-329 | The enrolled curricula of a learner are their whole scope, and of staff those of their own record within it. |
| ContentAccess.SwitchingOffHides | src/business/content-access.ts:126-131 | Switching a level off takes away, for every token, exactly what hangs from it and from no other level in scope. |
| ContentAccess.DocumentCurricula | src/business/content-access.ts:220-236 | The nested loops collect the curricula of all lessons that use the document, directly, by a link or in a plan. |
| AccessGuarantees.ListsAre | src/business/content-access.ts:251-311 | The lists hold exactly the curricula the token's organisation owns and its school's list, or the learner's own, has now, the grades of those and the levels of those that are on. |
| AccessGuarantees.LevelsAndLessonsOpen | src/business/content-access.ts:118-169 | A level opens exactly while it is on and its grade's curriculum is seen; a lesson and a level's question exactly with their level. |
| AccessGuarantees.LearningsAndPlansOpen | src/business/content-access.ts:170-177 | A learning item or plan opens exactly with its lesson. |
| AccessGuarantees.PracticesAndQuizzesOpen | src/business/content-access.ts:178-185 | A practice or quiz opens exactly with its lesson. |
| AccessGuarantees.QuestionsOpen | src/business/content-access.ts:188-203 | A question opens exactly with the lesson of the practice or quiz it is asked in. |
| AccessGuarantees.BaselinesOpen | src/business/content-access.ts:186-219 | Baseline content opens exactly when its curriculum is seen, whatever levels are on. |
| AccessGuarantees.DocumentsOpen | src/business/content-access.ts:220-236 | A document opens exactly when the organisation owns it and a lesson that opens uses it: by a learning item that shows it, one that links it, or a plan. |
| ActivityProgress.ActivitiesForLessons | src/business/activityprogress.business.ts:115-163 | Read in one batch and pushed back by lesson, each lesson's activities are those it is shown alone, in its own order. |
| ActivityProgress.BuildLearnings | src/business/activityprogress.business.ts:165-202 | Each item's status is that of its own progress row, whatever other items are read with it. |
| ActivityProgress.BuildQuizzes | src/business/activityprogress.business.ts:204-262 | Each quiz's status, attempts, best and question count are those of its own attempts and questions. |
| ActivityProgress.BuildPractices | src/business/activityprogress.business.ts:264-339 | Each practice's status, attempts, best and question count are those of its own attempts and questions. |
| ActivityProgress.QuizIsDone | src/business/activityprogress.business.ts:243-253 | A quiz shows as done exactly when some attempt reached 80 percent. |
| ActivityProgress.PracticeIsDone | src/business/activityprogress.business.ts:314-329 | A practice shows as done exactly when some attempt reaches 80 percent of its active questions, or it has none left. |
| ActivityProgress.StatusAndScoreDisagreeWhen | src/business/practicescore.ts:83-104 | What shows as done would be passed by the scoring, which counts only questions that can be shown; one that would be passed does not show as done exactly when the best marks, as rounded, are 80 percent of the shown count and not of the active count. |
| ActivityProgress.PassedButInProgress | src/business/activityprogress.business.ts:264-332 | With four shown and two unshown active questions, an attempt of four marks passes by the scoring and shows as in progress at 66.67. |
| ActivityGuarantees.LearningShows | src/business/activityprogress.business.ts:165-202 | A learning item is done exactly when it was viewed to its end, in progress from the first percent before that, and shows 100 or the percentage reached, held between 0 and 100. |
| ActivityGuarantees.UnseenIsTodo | src/business/activityprogress.business.ts:183-189 | An item without a row of the learner's is to do at 0. |
| ActivityGuarantees.QuizShows | src/business/activityprogress.business.ts:204-262 | A quiz is done exactly when an attempt of the learner's reached 80 percent, to do before the first, and shows the number of attempts, the highest percentage and its active questions. |
| ActivityGuarantees.PracticeShows | src/business/activityprogress.business.ts:264-339 | A practice is done exactly when an attempt holds 79.995 percent of the questions it has now, to do before the first, and shows the number of attempts and of active questions. |
| ActivityGuarantees.PracticeBestShows | src/business/activityprogress.business.ts:314-329 | Its percentage is the nearest hundredth of the most marks of an attempt, at most 100. |
| ActivityGuarantees.LessonListsLearnings | src/business/activityprogress.business.ts:115-163 | A lesson lists exactly its own switched-on learning items. |
| ActivityGuarantees.LessonListsPractices | src/business/activityprogress.business.ts:115-163 | And exactly its own switched-on practices. |
| ActivityGuarantees.LessonListsQuizzes | src/business/activityprogress.business.ts:115-163 | And quizzes. |
| ContentTranslations.Decorate | src/business/content-translations.ts:130-173 | Each row, in place, ends with what it would be given alone, whatever rows are listed with it, however often, and however ids fall into queries. |
| ContentTranslations.FindAll | src/business/content-translations.ts:141-151 | However the ids are cut into chunks, each row's own translations are found once and in order. |
| ContentTranslations.ServedExactly | src/business/content-translations.ts:154-167 | A row holds a text exactly when it is that of the last stored translation that is its organisation's, of this row and an open field, not in the columns' language, made from the text the row has now, and bears no answer. |
| ContentTranslations.ServedByItsConditions | src/business/content-translations.ts:141-167 | The same with each condition spelled out: the reader's organisation, the table, the row, an open field, a language that is not the base, the hash of the text the row carries now, and no field an answer is graded by. |
| ReportSort.SortNewestFirst | src/business/report.business.ts:248-258 | The swap loops leave the array as the insertion of each row in turn, although the key is read before the swaps. |
| ReportSort.NewestFirstSorts | src/business/report.business.ts:1296-1306 | The result is in descending start order, holds the same rows, and keeps the order of rows of one start time. |

## Left out

- OrganisationContent.OrganisationContentImport.Run: takes the payload after list trimming and country re-homing, does not model the organisation's own row, the roster link to schools or media metadata, and states what the payload validator guarantees (one row per id, parents and countries in the payload) as a hypothesis.
- OrganisationContent.OrganisationContentImport.WritePayload: does not model unique keys other than a translation's (a school's name, for one); a collision there is the database's refusal of the whole run.
- CountryRehoming.RehomeCountriesByName: does not count revived and collapsed rows; the rewriting of references is modelled by the id each one resolves to, not by the loop over the payload's tables.
- Ledger.StudentLedger.UpdateUserReward: does not keep the progress percentage and completion columns, which follow from the points by the rules in ProgressRules, and takes a level and a grade to be there, as the foreign keys require.
- Ledger.StudentLedger.RepayPass: the pass row updated is the counted pass of the earliest start, where the source takes any; every in-order run has at most one counted pass an activity, so the two choices agree there.
- LedgerRuns.InOrderRunBalances: needs the attempts of an activity in start order and totals that cover what activities are worth; out of order the newest attempt is not the last one credited.
- RepeatedDelivery.RepeatsAreErased: needs each activity's points to stay as they are over the run, since a delivery after a pass takes the current ones.
- Ledger.StudentLedger.CreateProgress: a repeated level quiz is answered with an error by the source, and a repeated quiz or practice with the stored row; the model states the rows only, which change in neither.
- ConcurrentDelivery.CopiesAreOneSubmission: a transaction is one step; reads of progress rows inside a reward that another transaction overtakes are not modelled.
- ConcurrentDelivery.BalanceNeedsAFreshRead: takes the lesson, level and grade rows as they are at the commit; only what is read before the transaction can be out of date.
- ConcurrentStars.StarsFollowScorings: a save writes the columns it lists, read or changed; the moment a row was last updated is not modelled.
- ConcurrentStarTheorems.StarsAreExactExactlyWhen: the direction from exact stars to no overlap needs every stored attempt to have earned a star, since an overlap that undoes only scorings of no stars loses nothing.
- RecalcPlanner.PlanLearner: models the counters of the five outcomes and the zeroed rows; the report's other counters are not modelled.
- RecalcRun.Recalculation.Run: does not model the refusals before the loop (flags, organisation, setting) or the printed report.
- ContentPlan: ids are symbolic, standing for the distinctness the planner itself checks; the text hash is any function; hides of a list of ids are a step for each id; notices, the media list and the seed's own placeholder pass are not modelled, and the file's shape checks are only those the plan depends on.
- ContentPlanner.Applier.ApplyPlan: does not model the organisation's content language or the count that verifies the rows at the end.
- ContentRerun.AcceptedAgain: the refusals of the organisation's content language and of the read-back that counts the rows at the end are not modelled.
- ContentRerun.RerunChangesNothing: the same two refusals are not modelled; the steps put hides before translations, which with distinct targets ends in the same rows.
- Grading.GradeSubmissionItems: the grading of one answer and its shape test are any functions.
- ProgressRules: doubles are exact quotients rounded half up to hundredths.
- Ownership.OwnedTable.ApplyTable: lists of disagreements and the count of unmapped rows, and the upsert of organisations, are not modelled.
- ContentAccess.GuardAgreesWithLevels: a table's ids are the usable ones, so the length test of an id is not modelled.
- ActivityProgress.ActivitiesForLessons: an attempt's percentage stands in hundredths, so a best of stored percentages is not rounded again; a progress column that is empty stands as 0.
- ContentTranslations.Decorate: takes the base text of a field as any function of the row, and the hash and the language code as any functions.
- Usage windows, reports other than the swap loops, export, media and the HTTP layer are not modelled: field copying or case analysis beside the parts above.
