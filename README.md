# neko: a Dafny model of the bootstrap core and the bot's feature logic

neko is a Discord bot written in Rust. It is assembled from modules and plugins.
Its core is a type-keyed registry and a two-phase startup:

- Registration: a module is default-constructed the first time some other
  module requires it. Its init hook runs before it is stored, so its
  dependencies land first. Dependents configure it through a mutable reference.
- Runtime queue: a hook may push a runtime closure onto the queue.
- `run`: drains the closures in push order. Each closure takes its fully
  configured module out of the registry by value and may spawn a task. The
  drain stops at the first error. Afterwards `run` waits for every task and
  reports the first error in collection order.

The repository holds this core in two snapshots:

- the monolithic `src/framework.rs`;
- the split files `src/core/state.rs`, `src/core/module.rs`,
  `core/src/module.rs` and `src/core/framework.rs`.

Around the core sit small pieces of pure logic:

- the `once_cell!`, `env!`, `api!`, `not_match!` and `rt!` macros;
- the Steam playtime formatter, the role filter, the paged leaderboards and the
  top-list query builder with its database refresh loops;
- the BeatLeader leaderboard;
- the two warning systems and the two posting-streak counters;
- the self-service role menus;
- the join and leave notices;
- the Deep Rock Galactic deep-dive text.

## How the model is organised

Each entity that the source updates in place is a class. Each such class has
methods that are proved equal to a pure specification function. The
properties the source promises are then proved about those functions as lemmas.

- `Registry` and `Runtime` are the specification of registration and of `run`.
  - A module's init hook is a list of actions: require a dependency and
    configure it; configure itself; enqueue a runtime closure; fail.
  - `TypeId` becomes an explicit `Kind`.
  - A module's value is the configuration it has accumulated.
  - A runtime closure's future is described by its result: failure, no handle,
    or a handle whose eventual join outcome is given.
- Implementations of the core:
  - `CoreState.State` (a `map<Kind, ModVal>`);
  - `CoreFramework.Framework` (the split snapshot);
  - `Monolith.ModuleFramework` (the monolithic snapshot).
- Other classes and loop methods:
  - `Macros.OnceCell`;
  - `SteamQuery.Select` (a statement builder mutated in place);
  - `Streak.Posts` (the stored streak rows);
  - `RoleMenus.Member` (a member's roles);
  - the loop methods of `Steam`, `Pagination`, `BeatLeader`, `SteamQuery` and
    `Greetings`.
- Pure code stays pure:
  - `fmt_sec`, the match tables, the menu layouts and the embed texts.
- Helper modules:
  - `Wrappers`, `Seqs` and `Text` model the standard-library behaviour the code
    relies on. This covers `Display` of integers, `str::parse` of `u64` and
    `i64`, `join`, `split`, `chunks`, `filter`, `{:0>4}` padding and Rust's
    truncating `/` and `%`.

The disk images, databases, HTTP APIs and the Discord gateway are outside the
model. What they answer is passed in as parameters, for example
`fetch: nat -> Result<ScorePage, string>` or the `found` flag of a member
lookup.

## Model

| member | source | states |
|---|---|---|
| CoreState.State.constructor | src/core/state.rs:37-41 | a new container holds no entry for any kind |
| CoreState.State.Put | src/core/state.rs:43-45 | stores the value under its kind, replacing an earlier value of that kind; every other kind's entry is unchanged |
| CoreState.State.Has | src/core/state.rs:47-49 | true exactly when an entry for the kind is present |
| CoreState.State.Borrow | src/core/state.rs:51-62 | the stored value if present, otherwise the "not present in State container" error |
| CoreState.State.BorrowMut | src/core/state.rs:64-75 | an edit made through the mutable borrow is what the container holds afterwards, so a later borrow or take sees it; an absent kind gives the error and changes nothing |
| CoreState.State.Take | src/core/state.rs:77-89 | returns the value and removes exactly that kind, so a second take or borrow fails; an absent kind gives the error and changes nothing |
| CoreTypes.MissingMessages | src/framework.rs:100-111 | the two snapshots word the missing-module error differently: "Required type … is not present in State container" and "Required module … is not loaded" |
| Registry.Init | src/core/module.rs:18-23 | after a successful `init_module` the module is registered |
| Registry.Req | src/core/module.rs:26-31 | after a successful `req_module` the module is registered |
| Registry.NotStoredDuringHook | src/core/module.rs:20-21 | while a module's own hook runs it is still absent (so a cyclic require would re-enter unguarded), and a failing hook leaves it unregistered |
| Registry.LeafFirst | src/core/module.rs:18-22 | when an absent module is stored, everything its hook required is already registered and the module itself was not; the registry after the init is exactly that state plus the module |
| Registry.InitStores | src/core/module.rs:18-22 | `init_module` stores the given instance as its own hook configured it, overwriting any earlier instance and re-running the hook |
| Registry.ReadOnlyHookStoresGiven | core/src/module.rs:9-23 | with `&self` hooks the stored instance is exactly the one given, and `req_module` stores the `Default` value unchanged |
| Registry.ReqIdempotent | src/core/module.rs:26-30 | `req_module` on a present module changes nothing; a second call after a successful one changes nothing and hands back the same instance, so the hook runs once |
| Registry.ReqErrorsFromHooks | src/core/module.rs:26-31 | every error of `req_module` is an error returned by some hook: the borrow after a successful init never fails |
| Registry.InitErrorsFromHooks | src/core/module.rs:18-23 | every error of `init_module` is an error returned by some hook |
| Registry.HookErrorsFromHooks | src/core/module.rs:18-23 | every error a hook ends with is one a hook returned |
| Registry.HookFrame | src/core/module.rs:18-31 | running a hook leaves untouched every module ranked at or above the hooked module |
| Registry.InitFrame | src/core/module.rs:18-23 | `init_module` of one kind changes no other kind of equal or higher rank |
| Registry.ReqFrame | src/core/module.rs:26-31 | `req_module` of one kind changes no other kind of equal or higher rank |
| Registry.HookGrows | src/core/module.rs:18-31 | a hook never unregisters a module and never drops a queued closure |
| Registry.InitGrows | src/core/module.rs:18-23 | `init_module` never unregisters a module and never drops a queued closure |
| Registry.ReqGrows | src/core/module.rs:26-31 | `req_module` never unregisters a module and never drops a queued closure |
| Registry.HookDepsPresent | src/core/module.rs:26-31 | after a successful hook every module it required is registered |
| Registry.HookOwn | src/core/module.rs:18-22 | a successful hook leaves its own instance extended by exactly the items it added to itself, in order |
| Registry.HookOwned | src/macros.rs:151-157 | a successful hook keeps every queued closure owned by a registered module or by one whose hook is still running |
| Registry.InitOwned | src/macros.rs:151-157 | a successful `init_module` keeps every queued closure owned by a registered or pending module |
| Registry.ReqOwned | src/macros.rs:151-157 | a successful `req_module` keeps every queued closure owned by a registered or pending module |
| Registry.ReqKeepsQueueOwned | src/macros.rs:151-157 | after a successful `req_module` from a consistent framework, every closure's `take::<Self>()` finds its module |
| Registry.Borrowed | src/framework.rs:83-98 | the borrow after registration succeeds exactly when the module is present, with the snapshot's missing-module error otherwise |
| Registry.HookItemsGrow | src/core/module.rs:18-31 | a hook never removes an item from any registered module: each instance only gains items through `&mut` edits |
| Registry.InitItemsGrow | src/core/module.rs:18-23 | `init_module` never removes an item from a registered module other than the one it stores |
| Registry.ReqItemsGrow | src/core/module.rs:26-31 | `req_module` never removes an item from any registered module |
| Registry.DependentEditKept | src/core/module.rs:26-31 | an edit a hook makes through the `&mut T` that `req_module` hands back is still held by the dependency when the hook ends: its instance holds the items it had at registration, plus the edit |
| Registry.DependentEditReachesClosure | src/core/framework.rs:36-42 | the dependency's runtime closure receives an instance that holds the dependent's edit, whatever else later hooks add |
| Registry.DependentEditScenario | src/core/framework.rs:36-42 | a module that requires a dependency and adds to it through `&mut` leaves one queued closure, owned by the dependency, which receives the dependency's default instance plus the edit |
| Registry.OwnItems | src/core/module.rs:18-22 | a hook that never touches its own fields adds nothing to itself |
| Runtime.DrainStep | src/core/framework.rs:39-43 | one closure fails exactly when its module is missing or its future fails; otherwise its module is taken out and a returned handle is kept |
| Runtime.JoinError | src/core/framework.rs:45-47 | a joined handle reports an error exactly when its task did not finish cleanly |
| Runtime.DrainAppend | src/core/framework.rs:39-43 | draining a queue is draining its first part and then its rest |
| Runtime.StopsAtFirstFailure | src/core/framework.rs:40 | once a closure has failed no later closure runs: the outcome and the registry are those at the failure |
| Runtime.DrainCompletes | src/core/framework.rs:39-43 | a drainable queue drains without error and collects exactly the `Some` handles, in closure order |
| Runtime.DrainHandsOwnerValues | src/core/framework.rs:36-42 | each closure of a complete drain receives its module's value as registration left it |
| Runtime.DrainRemovesOwners | src/core/framework.rs:36-42 | after a complete drain the registry has lost exactly the modules the closures took |
| Runtime.DrainFails | src/core/framework.rs:39-43 | a queue in which some closure cannot take its module, or fails, ends the drain with an error |
| Runtime.JoinAllPass | src/core/framework.rs:45-47 | waiting on the handles is Ok exactly when every task finished cleanly |
| Runtime.JoinAllFirstError | src/core/framework.rs:45-47 | after all handles finish, the error reported is the first failing handle's in collection order, not the first to fail in time |
| Runtime.RunOkIff | src/core/framework.rs:35-48 | `run` is Ok exactly when every closure takes its module and resolves without error and every collected task finishes cleanly; an empty queue is Ok |
| Runtime.Spawned | src/core/framework.rs:40-42 | at most one handle per closure |
| Runtime.Owners | src/core/framework.rs:36-42 | the modules a queue's closures take, as a set in both directions |
| Runtime.OwnerValues | src/core/framework.rs:36-42 | one module value per closure |
| Runtime.OwnerValueAt | src/core/framework.rs:39-40 | the n-th closure receives the value of the module it takes |
| CoreFramework.Framework.constructor | src/core/framework.rs:27-33 | `new` yields empty module and runtime-state containers, which are distinct objects, and an empty queue |
| CoreFramework.Framework.HasModule | src/core/module.rs:13-15 | true exactly when the module is registered |
| CoreFramework.Framework.InitModule | src/core/module.rs:18-23 | the registry, the queue and the outcome are those of `Registry.Init` |
| CoreFramework.Framework.ReqModule | src/core/module.rs:26-31 | the registry, the queue and the outcome are those of `Registry.Req`, and a success hands back the stored instance |
| CoreFramework.Framework.RunHook | src/core/module.rs:18-22 | running a hook against the framework is `Registry.Hook`: each require re-enters `ReqModule` and edits the dependency in place |
| CoreFramework.Framework.Run | src/core/framework.rs:35-49 | the result is `Runtime.RunSpec` of the registry and queue, and the registry is left as the drain leaves it |
| CoreFramework.OutcomeOf | src/core/module.rs:26-31 | a `Res` read as success or failure, keeping the error |
| Monolith.ModuleFramework.constructor | src/framework.rs:48-53 | an empty module map and an empty runtime queue |
| Monolith.ModuleFramework.Has | src/framework.rs:70-72 | true exactly when the module is in the map |
| Monolith.ModuleFramework.Init | src/framework.rs:75-80 | the hook runs first and the module is inserted only if it succeeds, as `Registry.Init` |
| Monolith.ModuleFramework.Req | src/framework.rs:83-98 | initialises a default module only when absent, then hands back the stored instance, as `Registry.Req` |
| Monolith.ModuleFramework.RunHook | src/framework.rs:75-80 | a module's hook against the monolithic framework is `Registry.Hook` |
| Monolith.ModuleFramework.Take | src/framework.rs:100-111 | removes the module and returns it by value; an absent or already taken module gives "Required module … is not loaded" and nothing changes |
| Monolith.ModuleFramework.Run | src/framework.rs:55-68 | closures in push order, stopping at the first failure, then the first handle error in collection order: `Runtime.RunSpec` |
| Monolith.First | src/framework.rs:114-117 | `first!` picks the given expression when there is one, otherwise the fallback |
| Monolith.ModuleDefault | src/framework.rs:144-150 | the generated `Default` yields one value per declared field |
| Monolith.ModuleDefaultFields | src/framework.rs:144-150 | each field gets its declared initialiser if it has one, otherwise its type's default |
| Macros.EnvRequired | src/macros.rs:8-10 | the variable's value, or the error "NAME is not present" when unset |
| Macros.EnvOr | src/macros.rs:11-13 | the variable's value, or the default when unset |
| Macros.EnvFormsAgree | src/macros.rs:7-14 | the two forms agree where the variable is set, and the defaulting form yields the default exactly where the other fails |
| Macros.OnceCell.constructor | src/macros.rs:17-18 | a new cell is empty and has never been written |
| Macros.OnceCell.Set | src/macros.rs:17-18 | a set on an empty cell stores the value; a second set fails and changes nothing, so the cell is written at most once |
| Macros.OnceCell.Get | src/macros.rs:20-25 | the getter fails with "… has not yet been initialized" before the set and returns the stored value after |
| Macros.OnceCell.GetOrInit | src/macros.rs:27-32 | the lazy getter stores its initialiser's result only when the cell is empty; every call returns the one stored value |
| Macros.ApiUrl | src/macros.rs:77 | the URL starts with base and endpoint; without parameters that is all; with them "?" and one "name=value&" per parameter follow, in declaration order |
| Macros.Pieces | src/macros.rs:77 | one "name=value" piece per parameter |
| Macros.QueryStringIsJoin | src/macros.rs:77 | the query string is the pieces joined by '&' with a trailing '&' |
| Macros.SplitQuery | src/macros.rs:77 | splitting the query string on '&' gives back the pieces and one empty tail, when no name or value holds '&' or '=' |
| Macros.ParseQueryString | src/macros.rs:77 | such a query string reads back as the parameters it was built from |
| Macros.UnescapedValueMisread | src/macros.rs:77 | a value holding '&' does not read back: the URL does not escape its parameters |
| Macros.NotMatch | src/macros.rs:135-142 | the block runs exactly when the value does not match the pattern |
| Macros.NestedNotMatch | src/macros.rs:135-142 | two nested `not_match!`s around an early return return early exactly when neither pattern matches; the code after them runs exactly when either one matches |
| Macros.Rt | src/macros.rs:151-157 | `rt!` appends one closure, owned by the module whose hook runs, and keeps the earlier queue; every `rt!` step of `Registry.Hook` and of both frameworks goes through it |
| Steam.DivDecDigit | src/plugins/steam/plugin.rs:161-163 | for a non-negative amount, `divdec` gives the integer quotient and the first decimal digit of the quotient |
| Steam.FmtSecMatchesReference | src/plugins/steam/plugin.rs:165-196 | `fmt_sec` equals a reference rendering: seconds below a minute; then for each unit in turn "q.d u" while the quotient is 1..9, and "q u" from 10 until the next unit reaches 1 |
| Steam.FmtSecSeconds | src/plugins/steam/plugin.rs:172-173 | below a minute the amount is printed as "{n}s", and only there; every other output ends in a unit letter |
| Steam.FmtSecYears | src/plugins/steam/plugin.rs:192-193 | from ten years on, the output is whole years "{y}y" |
| Steam.WholeDaysUnreachable | src/plugins/steam/plugin.rs:182-183 | the whole-days branch is dead: ten days already exceed a week |
| Steam.FilterRoles | src/plugins/steam/plugin.rs:89-92 | exactly the requested roles the member does not hold, in their requested order |
| Steam.FilterRolesNoDup | src/plugins/steam/plugin.rs:80-92 | when the requested role ids are free of repeats, as `get_roles`'s `distinct` query returns them, the filtered list has no repeats either, so no role is added twice |
| Steam.JoinRoles | src/plugins/steam/module.rs:63-68 | bots get no role request; others are granted exactly `filter_roles` of their cached roles (empty when uncached) and their earned roles |
| Steam.Width | src/plugins/steam/plugin.rs:231 | the column width is the longest formatted amount, or 5 for an empty page |
| Steam.Amounts | src/plugins/steam/plugin.rs:228-230 | one formatted amount per row, in order |
| Steam.RenderTop | src/plugins/steam/plugin.rs:226-241 | `get_page` builds the page text from the amounts, their width and one line per row |
| Steam.AppendLines | src/plugins/steam/plugin.rs:232-239 | the `output +=` loop yields the row lines in row order |
| Steam.TopColumnAligned | src/plugins/steam/plugin.rs:231-239 | every line opens with a backtick and its amount right-aligned to the common width, so the column lines up |
| Pagination.PaginationButtons | src/plugins/steam/plugin.rs:308-350 | three buttons "pg_prev", "pg_disp", "pg_next"; prev is disabled iff loading or on page 0, next iff loading or on the last page, the middle always; only the button that caused a reload shows the loading emoji, and the middle one reads "page+1/pages" otherwise |
| Pagination.FaceOf | src/plugins/steam/module.rs:364-369 | a button shows the loading emoji exactly when it caused the reload, and its label otherwise |
| Pagination.LoadingDisablesAll | src/plugins/steam/module.rs:364-393 | while a page loads no button can be pressed |
| Pagination.StepPage | src/plugins/steam/module.rs:302-306 | only "pg_prev" and "pg_next" move the page; the `u64` counter fails exactly on a step below 0 or past its maximum |
| Pagination.PressStaysInRange | src/plugins/steam/plugin.rs:262-266 | a press on an enabled button keeps the page inside 0..pages-1 |
| Pagination.Walk | src/plugins/steam/plugin.rs:262-266 | one shown page per press |
| Pagination.WalkStaysInRange | src/plugins/steam/plugin.rs:262-266 | a run of presses on enabled buttons never underflows the counter and never leaves 0..pages-1 |
| Pagination.Browse | src/plugins/steam/plugin.rs:262-266 | the `while let Some(press)` loop shows, press by press, the pages of `Walk` from page 0 |
| Pagination.PlainWindow | src/plugins/steam/plugin.rs:219-221 | page p reads `SIZE` rows from offset `SIZE·p` |
| Pagination.PlainWindowsTile | src/plugins/steam/plugin.rs:219-221 | consecutive pages tile the result: page p+1 starts where page p ends |
| Pagination.OverlapWindowRows | src/plugins/steam/module.rs:245-249 | the overlapping window reads the page's own rows, the first row of the next page, and the last row of the previous page when there is one, nothing more |
| BeatLeader.PageWindow | src/modules/beatleader.rs:78-83 | page 0 reads 16 rows from offset 0; page p > 0 reads 17 rows from offset 15·p − 1 |
| BeatLeader.SeparatorsMarkPageEdges | src/modules/beatleader.rs:86-94 | the separator before a row marks the first row of the next page, the separator after a row marks the last row of the previous page, and the rows between them are exactly the page's own |
| BeatLeader.RenderPage | src/modules/beatleader.rs:85-95 | the `get_page` loop yields, per row, the separator before, the row line and the separator after, in row order |
| BeatLeader.AppendRow | src/modules/beatleader.rs:87-93 | one loop iteration appends exactly that row's piece |
| BeatLeader.LastPage | src/modules/beatleader.rs:219 | the `ceil(total / 100)` bound is the least page count covering all scores |
| BeatLeader.GetScores | src/modules/beatleader.rs:214-225 | the page loop returns `Scores` of the API's answers |
| BeatLeader.ScoresPages | src/modules/beatleader.rs:214-225 | page 1 alone up to 100 scores; beyond that pages 2..=⌈total/100⌉ appended in page order; a failed page 1 is the result |
| BeatLeader.FetchedStopsAtError | src/modules/beatleader.rs:220 | once a page fetch has failed, later pages change nothing |
| BeatLeader.FetchedAllPages | src/modules/beatleader.rs:219-222 | when every page answers, the scores are the pages' data in page order |
| BeatLeader.FetchedFirstError | src/modules/beatleader.rs:219-222 | the first failing page, after answering ones, decides the error |
| BeatLeader.PageData | src/modules/beatleader.rs:219-222 | one data block per fetched page, in page order |
| SteamQuery.Select.constructor | src/plugins/steam/query.rs:163 | `Query::select()` starts with no clauses |
| SteamQuery.Select.From | src/plugins/steam/query.rs:164 | appends one table to FROM and changes no other clause |
| SteamQuery.Select.AndWhere | src/plugins/steam/query.rs:171 | appends one condition and changes no other clause |
| SteamQuery.Select.GroupByCol | src/plugins/steam/query.rs:172 | appends one grouping column and changes no other clause |
| SteamQuery.Select.Columns | src/plugins/steam/query.rs:173 | appends the columns and changes no other clause |
| SteamQuery.Select.ExprAs | src/plugins/steam/query.rs:193-199 | appends one aliased aggregate and changes no other clause |
| SteamQuery.Select.ExprWindowAs | src/plugins/steam/query.rs:200-212 | appends one row-number window and changes no other clause |
| SteamQuery.Select.OrderByDesc | src/plugins/steam/query.rs:220 | appends one descending order and changes no other clause |
| SteamQuery.NekoidEq | src/plugins/steam/query.rs:224-235 | `nekoid_eq` changes the builder exactly as its specification |
| SteamQuery.MemberEq | src/plugins/steam/query.rs:237-250 | `member_eq` changes the builder exactly as its specification |
| SteamQuery.OfClauses | src/plugins/steam/query.rs:167-190 | the `match of` block adds the entity's table, join, grouping and columns |
| SteamQuery.AtClause | src/plugins/steam/query.rs:214-219 | the `match at` block adds the scope's filter |
| SteamQuery.BuildTopQuery | src/plugins/steam/query.rs:162-222 | `build_top_query` builds the statement `TopQuery` describes |
| SteamQuery.TopQueryFromPlaydata | src/plugins/steam/query.rs:164 | SteamPlaydata is always the first table in FROM |
| SteamQuery.NekoidEqChoice | src/plugins/steam/query.rs:224-235 | `nekoid_eq` adds the user joins when the entity is guilds or users or the scope is a guild or a user, and otherwise leaves the statement as it was |
| SteamQuery.MemberEqChoice | src/plugins/steam/query.rs:237-250 | `member_eq` adds the members join when the entity is guilds or the scope is a guild, and otherwise leaves the statement as it was |
| SteamQuery.NekoJoinIff | src/plugins/steam/query.rs:224-235 | the two user tables and both join predicates are present iff the entity is guilds or users or the scope is a guild or a user |
| SteamQuery.MemberJoinIff | src/plugins/steam/query.rs:237-250 | the members table and its join are present iff the entity is guilds or the scope is a guild |
| SteamQuery.TopQueryClosed | src/query/steam.rs:167-227 | for every entity, metric and scope, each table read by a condition, grouping, column or aggregate is in FROM, in both schema generations |
| SteamQuery.TopQueryAggregateAndScope | src/plugins/steam/query.rs:192-220 | SUM(playtime) or COUNT(app_id) as `sum_count` and the row number ordered by the same aggregate; ordered by `sum_count`; exactly one value filter unless the scope is global |
| SteamQuery.NekoJoinClosed | src/plugins/steam/query.rs:231-234 | adding the user join keeps every read table in FROM |
| SteamQuery.MemberJoinClosed | src/plugins/steam/query.rs:245-249 | adding the members join keeps every read table in FROM |
| SteamQuery.OfPartClosed | src/plugins/steam/query.rs:167-190 | the entity clauses keep every read table in FROM when the joins they rely on are present |
| SteamQuery.AtFilterClosed | src/plugins/steam/query.rs:214-219 | the scope filter keeps every read table in FROM when the joins it relies on are present |
| SteamQuery.ValueFiltersAppend | src/plugins/steam/query.rs:214-219 | value filters of two condition lists add up |
| SteamQuery.NoValueFilters | src/plugins/steam/query.rs:167-190 | join conditions alone hold no value filter |
| SteamQuery.IdStrings | src/plugins/steam/query.rs:40-44 | one decimal id string per user, in order |
| SteamQuery.RequestBatches | src/plugins/steam/query.rs:37-45 | each request carries 1 to 100 ids, and the comma-joined parameter splits back into exactly that batch's ids |
| SteamQuery.ParsePlayers | src/plugins/steam/query.rs:49-51 | a reply whose ids all parse gives one profile per player |
| SteamQuery.ParseReply | src/plugins/steam/query.rs:49-51 | the player loop yields one (id, name) per player in reply order, and stops with nothing at the first id that does not parse as `i64` |
| SteamQuery.ParseFailureSticks | src/plugins/steam/query.rs:50 | one id that does not parse aborts the whole reply |
| SteamQuery.ProfilesFailureSticks | src/plugins/steam/query.rs:50 | a malformed id in any batch aborts the whole update |
| SteamQuery.FailedBatchSkipped | src/plugins/steam/query.rs:53 | a batch whose request fails is skipped |
| SteamQuery.AnsweredBatchAppended | src/plugins/steam/query.rs:48-52 | a batch whose players all parse adds them, in reply order, after the earlier ones |
| SteamQuery.UpdateUsers | src/plugins/steam/query.rs:34-66 | the loop over batches of 100 succeeds exactly when `Profiles` does, and writes the profiles in batches of 10000 |
| SteamQuery.UtcDay | src/plugins/steam/query.rs:73 | the day is the one whose 86400 seconds contain the current time |
| SteamQuery.GameRows | src/plugins/steam/query.rs:82-85 | one playdata row per owned game of the user, in order |
| SteamQuery.NameMapKeys | src/plugins/steam/query.rs:83 | the apps map holds exactly the ids of the games seen |
| SteamQuery.LastNameWins | src/plugins/steam/query.rs:83 | the stored name of an app is the one seen last |
| SteamQuery.PlayRowsStep | src/query/steam.rs:83-94 | a user whose owned-games request fails adds no rows; otherwise one row per game |
| SteamQuery.SeenGamesStep | src/plugins/steam/query.rs:78-88 | a failed request adds no games; an answered one adds its games |
| SteamQuery.NameMapStep | src/plugins/steam/query.rs:83 | inserting a game sets its id's name and nothing else |
| SteamQuery.UpdatePlaydata | src/plugins/steam/query.rs:71-102 | the day is the current UTC day, the apps map holds the last name seen per game, and the playdata rows (one per owned game of each answering user, in user order) are written in batches of 10000 |
| SteamQuery.RecordGames | src/plugins/steam/query.rs:82-85 | the inner loop records every game's name and one row per game |
| WarnSys.MatchWarnMonotone | src/modules/warnsys.rs:83-109 | a further warning never shortens the timeout, in both table versions |
| WarnSys.MatchWarnSaturates | src/modules/warnsys.rs:106-108 | from the top of the table on (7 in the module, 3 in the plugin) every count gives 24 days |
| WarnSys.LabelsMatchDurations | src/plugins/warnsys/plugin.rs:86-100 | each label, read as "N unit" by an independent parser, names the same span as its timeout |
| WarnSys.LabelSpanOf | src/modules/warnsys.rs:83-109 | a label "N unit" reads as N times that unit |
| WarnSys.Gate | src/modules/warnsys.rs:61-70 | a command passes the gate exactly in the guild, for an author whose freshly looked-up roles include the moderator role |
| WarnSys.OnlyModeratorsChangeThings | src/modules/warnsys.rs:30-70 | outside the guild `warn` and `rm_warn` only reply; any warning table change or timeout happens only for a moderator |
| WarnSys.WarnEscalates | src/modules/warnsys.rs:71-78 | a completed `warn` records the warning, announces the length for the post-insert count and the next one, and times out for the post-insert count, taking that count as the query answers it; the next length is never shorter (`WarnSys.InsertedWarningCounted` shows the count is at least one) |
| WarnSys.Warns | src/modules/warnsys.rs:28-39 | outside the guild only the refusal; `warns` never changes anything |
| WarnSys.InsertByTs | src/modules/warnsys.rs:35 | inserting a warning keeps every element and adds that one |
| WarnSys.SortByTs | src/modules/warnsys.rs:35 | sorting keeps exactly the fetched warnings |
| WarnSys.InsertKeepsSorted | src/modules/warnsys.rs:35 | inserting into a list sorted on the second field keeps it sorted |
| WarnSys.SortByTsSorted | src/modules/warnsys.rs:35 | the listed warnings are in order of the second fetched field, are a permutation of the fetched ones, and rows with equal second fields keep their fetched order (`sort_by_key` is stable) |
| WarnSys.InsertStable | src/modules/warnsys.rs:35 | inserting a row into a list sorted on the second field puts it after every row with the same key and keeps their order |
| WarnSys.SortStable | src/modules/warnsys.rs:35 | for every key, the sorted rows with that second field are the fetched ones with it, in fetched order |
| WarnSys.Active | src/query/warnsys.rs:15-18 | a record is selected exactly when it is in the table, belongs to the user and was issued within the last week (strictly after now minus 604800 seconds) |
| WarnSys.ActiveUserWarnings | src/query/warnsys.rs:12-20 | one row per selected record, with its warning id and reason; decoded by position, the second field is the record's `DiscordId`, which is the queried user |
| WarnSys.IntendedUserWarnings | src/query/warnsys.rs:12-20 | the intended decoding: one row per selected record whose second field is its issue time, always within the last week |
| WarnSys.SameKeySortIdentity | src/modules/warnsys.rs:35 | the stable sort leaves a list whose rows share one key unchanged |
| WarnSys.QueriedSortIsIdentity | src/modules/warnsys.rs:34-36 | as written, every listed row shows the queried user's id in its middle column and the sort keeps the fetched order |
| WarnSys.NewestFirstStaysFirst | src/modules/warnsys.rs:34-36 | two active warnings fetched newest first are listed newest first |
| WarnSys.InsertedWarningCounted | src/modules/warnsys.rs:71-86 | the active-warning count read right after inserting a warning for a user includes it, so it is at least one and the zero row of `match_warn` is unreachable from `warn` |
| WarnSys.IntendedListInIssueOrder | src/modules/warnsys.rs:35 | with the intended decoding the list is in issue-time order, is a permutation of the active warnings, and every listed time is within the last week |
| WarnSys.WarnLineOneLine | src/modules/warnsys.rs:36 | a warning whose reason has no newline renders on one line |
| WarnSys.ListLines | src/modules/warnsys.rs:36-37 | when no reason spans lines, the lines of the list are the sorted warnings, one each |
| Streak.Decide | src/modules/streak.rs:43-63 | the three branches are disjoint and exhaustive: below 18 h, from 18 h to below 36 h, from 36 h on |
| Streak.MissingRecordIsZero | src/modules/streak.rs:41 | a user with no row is treated as a post at time 0 with count 0 |
| Streak.WritesAreFresh | src/modules/streak.rs:51-63 | every write stamps the new post's time and a count of at least 1; a post that comes too early writes nothing |
| Streak.Posts.constructor | src/modules/streak.rs:41 | no rows are stored at first |
| Streak.Posts.OnMessage | src/modules/streak.rs:33-64 | messages outside the channel, from bots, or (for streaks) without attachments change nothing and get no reply; otherwise the row and the reply are those of the decision, and every stored count stays positive |
| Streak.OnTimePostsCount | src/modules/poststrike.rs:37-61 | posts each 18 to 36 hours after the one before count up one by one from 1 |
| Streak.OnTimeFrom | src/modules/streak.rs:51-58 | every on-time post adds exactly one to the count and stamps its time |
| RoleMenus.Member.constructor | src/modules/ftv.rs:196-202 | the member holds the given roles |
| RoleMenus.Member.RemoveRoles | src/modules/ftv.rs:214 | every listed role is gone; the others stay, in order |
| RoleMenus.Member.AddRoles | src/modules/ftv.rs:221 | the listed roles not yet held are appended |
| RoleMenus.Member.RemoveRole | src/modules/nftv.rs:117 | that role is gone; the others stay, in order |
| RoleMenus.Member.AddRole | src/modules/nftv.rs:120 | the role is held afterwards, appended if it was not |
| RoleMenus.Mentions | src/modules/ftv.rs:223-224 | one role mention per role, in order |
| RoleMenus.SelectReachesTarget | src/modules/ftv.rs:209-221 | the removals and the additions are disjoint; afterwards the member holds a role of the menu exactly when it was selected, and any other role exactly when it held it before |
| RoleMenus.SelectReplyLines | src/modules/ftv.rs:229-236 | the reply is empty exactly when nothing changed; it opens with the "Removed roles" line when something was removed, else with the "Added roles" line |
| RoleMenus.OnSelect | src/modules/ftv.rs:196-240 | the handler for one menu leaves the roles of `AfterSelect` and replies with `SelectReply` of the removed and added roles |
| RoleMenus.SelectOtherIdsIgnored | src/modules/ftv.rs:192-193 | an interaction whose custom id names no menu changes no role and sends nothing |
| RoleMenus.OnSelectInteraction | src/modules/ftv.rs:186-240 | only in a guild and for a found member are the menus whose id matches applied, in table order, with one ephemeral reply per matching menu (`SelectReplies`) naming what that menu removed and added from the roles held when it was reached; otherwise nothing changes and nothing is sent |
| RoleMenus.SelectPrefixStep | src/modules/ftv.rs:192-240 | one more menu row either applies its selection and appends its reply, when its custom id matches, or leaves both the roles and the replies as they were |
| RoleMenus.SelectRepliesCount | src/modules/ftv.rs:192-240 | an interaction gets exactly one reply per menu row carrying its custom id |
| RoleMenus.Toggle | src/plugins/ftvroles/plugin.rs:38-60 | the press's outcome is `ToggleSpec`, and the roles change only when a role was toggled |
| RoleMenus.ToggleFlips | src/modules/ftvroles.rs:49-55 | a press on a known role removes it if held, adds it otherwise, and leaves every other role as it was |
| RoleMenus.ToggleReply | src/modules/nftv.rs:116-122 | the reply to a press on a known role says "Removed role" exactly when the role was held, "Added role" otherwise |
| RoleMenus.NonNumericIdPanics | src/modules/nftv.rs:108 | a component id that is not a `u64`, such as "pg_next", panics in the nftv and ftvroles module handlers |
| RoleMenus.PluginIgnoresNonNumericIds | src/plugins/ftvroles/plugin.rs:39-41 | the plugin handler ignores any id that is not a `u64` and changes no role |
| RoleMenus.EmojiOf | src/modules/ftvroles.rs:93-97 | a custom emoji takes its id from the table text, falling back to a fixed emoji when it does not parse |
| RoleMenus.ButtonOf | src/modules/nftv.rs:73-75 | a button gets a label exactly when the table text is not empty, and its custom id is the role id in decimal |
| RoleMenus.Buttons | src/modules/ftvroles.rs:87-104 | one button per entry, in order |
| RoleMenus.MessagesOf | src/modules/ftvroles.rs:79-84 | one message per batch of rows; only the first carries the heading |
| RoleMenus.GroupLayout | src/plugins/ftvroles/plugin.rs:69-123 | at least one message; the heading only on the first; at most 5 buttons per row and 5 rows per message; the buttons, read back in order, are the table's; an empty group sends one heading-only message |
| RoleMenus.ChunkOfChunks | src/modules/ftvroles.rs:70-79 | chunking rows into messages keeps each row at most 5 buttons |
| RoleMenus.RowsOf | src/modules/ftvroles.rs:79 | the rows of each message, in message order |
| RoleMenus.CategoryMessage | src/modules/nftv.rs:55-90 | one message per category, its heading and one row per table row |
| RoleMenus.MenuOf | src/modules/ftv.rs:144-183 | a select menu needs no pick and allows at most all of its options, capped at 25; one option per entry, valued with the role id in decimal |
| RoleMenus.RowRoles | src/modules/ftv.rs:196-207 | the role ids a menu manages, in order |
| RoleMenus.SelectedOptionsAreTarget | src/modules/ftv.rs:203-207 | the handler's target is exactly the roles whose menu options were selected |
| RoleMenus.CategoryMenus | src/modules/ftv.rs:144-183 | one message per category: its heading and one menu per row |
| Greetings.Avatar | src/modules/welcomer.rs:88-93 | the user's own avatar, otherwise the default one |
| Greetings.GetNameTag | src/modules/welcomer.rs:95-101 | with a discriminator the name is followed by '#' and exactly four digits that read back as the discriminator |
| Greetings.GetNameBare | src/modules/welcomer.rs:95-101 | without a discriminator the name is shown as it is |
| Greetings.PaddedTag | src/modules/ftv.rs:300-306 | `{:0>4}` of a discriminator is four digits reading back as it |
| Greetings.TagSplit | src/modules/nftv.rs:186-192 | the tag is the part after the name and '#' |
| Greetings.NoticeOf | src/modules/welcomer.rs:36-79 | the embed goes to the given channel, names the user, shows their avatar as its icon and links their profile; a join is green and says "Welcome <@id> to the server!", a leave is red and says "<@id> has left the server!" |
| Greetings.ServerNotice | src/modules/ftv.rs:247-286 | the per-server handlers post exactly for non-bot users of their own server, into its general channel |
| Greetings.Welcome | src/modules/welcomer.rs:31-81 | the welcomer's loop over `GUILDS` sends exactly the notices `TableNotices` lists |
| Greetings.WelcomerReplacesServerHandlers | src/modules/welcomer.rs:11-14 | the welcomer posts exactly what the two per-server handlers it replaced posted |
| Greetings.TableNoticesChannels | src/modules/welcomer.rs:31-80 | nothing is posted for bots, and every notice goes to the channel of a table entry of the event's server |
| Greetings.OptSeq | src/modules/welcomer.rs:36-52 | an optional notice as zero or one message |
| Drg.Lookup | src/plugins/drg/plugin.rs:48-63 | an exact, case-sensitive match: the first entry with that name, otherwise the fallback |
| Drg.TablesWellFormed | src/plugins/drg/plugin.rs:48-99 | every biome and mutator icon is non-empty, and no icon spans lines |
| Drg.BiomeIconIff | src/plugins/drg/poise.rs:29-44 | a biome gets an icon exactly when it is one of the ten named ones; anything else yields "" |
| Drg.MutatorIconIff | src/plugins/drg/plugin.rs:65-78 | a mutator gets an icon exactly when it is one of the eight named ones ("Volatile Guts" with a trailing space) |
| Drg.WarningTables | src/plugins/drg/plugin.rs:80-99 | an unknown warning shows the placeholder in both tables; the newer table knows every older name and adds "Bulk Infestation" and "Lithophage Outbreak" |
| Drg.WarningText | src/plugins/drg/plugin.rs:106-115 | an absent warning renders as "", a present one as its icon |
| Drg.MutatorText | src/modules/drg.rs:100-109 | an absent mutator renders as "", a present one as its icon |
| Drg.StageTextLines | src/plugins/drg/plugin.rs:116-119 | a stage renders as its three lines "Stage {id}: {warning}{mutator}", "- {primary}", "- {secondary}" |
| Drg.VariantTextLines | src/plugins/drg/plugin.rs:120-123 | a variant's text splits into the seed line followed by every stage's lines, in stage order; a variant without stages splits into the seed line and one empty line |
| Drg.StagedVariantLines | src/plugins/drg/plugin.rs:120-123 | with at least one stage, the text splits into the seed line followed by every stage's lines |
| Drg.VariantTextIsJoin | src/modules/drg.rs:110-117 | a variant's text is the seed line and all stage lines joined by newlines; without stages it is the seed line and a bare newline |
| Drg.Fields | src/plugins/drg/plugin.rs:28-46 | one inline field per variant, in response order, titled "{name} {biome icon}" and valued with the variant's text |
| Drg.UnknownBiomeTitle | src/modules/drg.rs:28-37 | a variant in an unknown biome keeps its name followed by a bare space |
| Drg.StageTexts | src/plugins/drg/plugin.rs:120-123 | one text per stage, in order |
| Drg.AllStageLines | src/plugins/drg/plugin.rs:116-119 | three lines per stage, in order |
| Drg.StageTextsAreJoins | src/plugins/drg/plugin.rs:116-123 | each stage's text is its three lines joined by newlines, whatever the stage's fields hold |
| Drg.JoinFlatten | src/plugins/drg/plugin.rs:120-123 | joining groups and then the joined groups is joining all their members |
| Drg.JoinAppend | src/plugins/drg/plugin.rs:120-123 | joining two non-empty lists is joining each and putting the separator between |

## Left out

- Concurrency: the `RwLock` around the runtime state, `tokio::spawn`, and what a task does while it runs. A task is its join outcome, given in advance. The model keeps only the order in which `run` inspects results, not the timing.
- The runtime-state lock handed to every closure (src/core/framework.rs:36, 40): `CoreFramework.Framework` keeps a `state` container, but the closures' use of it is not modelled.
- Registry.HookItemsGrow, Registry.InitItemsGrow, Registry.ReqItemsGrow: a dependent's edit through the `&mut T` that `req_module` returns is modelled as appending items (`Require(dep, adds)`). That fits every hook in the source (`poise.commands.push`, `poise.intents.insert`), but an edit that removes or replaces fields is not modelled. These three lemmas, and `Registry.DependentEditKept` and `Registry.DependentEditReachesClosure` which rest on them, depend on edits being additive.
- Dependency cycles: the code has no cycle guard. `Registry.WellRanked` (a rank that strictly decreases along every require) is a precondition of registration. The model does not claim that the code rejects cycles.
- The snapshots: the generic `State<dyn AnyData>` and the two-argument closures of src/core/framework.rs, and the `.await` on `req_module` in the plugins, are modelled by their shared synchronous meaning.
- core/src/framework.rs is not part of this model.
- The module and plugin bodies that make up a build (Poise, Axum, Cron and the others) are not modelled one by one. Each is a hook given as a list of actions, with a runtime closure whose result is `Prep`.
- Runtime queue order: the queue holds closures in the order hooks reach their `rt!`. A module's closure can therefore come before those of its dependencies, because a dependency's hook runs inside the dependent's. This is what the code does, and the model follows it.
- `Macros.OnceCell`: a `static` global becomes an object. Concurrent first calls to the lazy getter are not modelled.
- `env!`: an unset variable is modelled as the error value. The panic, and a value that is not Unicode, are not modelled.
- Macros.OnceCell.Get: the `expect` at src/macros.rs:24 panics on an unset cell. The model returns that message as an `Err` value instead, so the process abort is not modelled.
- `api!`: the HTTP request and the JSON decoding are left out. Parameter values are taken as already formatted.
- Steam.FmtSecMatchesReference: `i64` overflow of `num * 10` for amounts near `i64::MAX` is not modelled, because integers are unbounded here.
- Steam.RenderTop: the query and the `as i32`/`i64` conversions are left out. The page counter and the last-page test are modelled in `Pagination`.
- The Steam top list of src/plugins/steam/module.rs renders an image (an SVG template). Only its window, buttons and counter are modelled.
- Pagination.StepPage: an underflow of the `u64` page is modelled as a failed step, because Rust's debug build panics there.
- SteamQuery: the SQL text; `sea_query`'s quoting; the `ratelimit` sleep.
- SteamQuery: the database writes are returned as batches, not executed. The play-history insert of src/plugins/steam/query.rs:120-134 depends on the ids the database returns, so it is left out.
- SteamQuery: the owned-games response's `as i32`/`as i64` casts are taken as exact.
- SteamQuery.UtcDay: the `as i32` truncation of the day number is not modelled, because no real clock value reaches `i32` range.
- BeatLeader: the pp weighting and `sort_floats` use floating point and are left out. The f64 `ceil` of `get_scores` is modelled as integer ceiling division. The `Display` text of `pp` is an opaque string.
- WarnSys: the database's row order, which the query leaves unspecified, is taken as the table order. The later src/plugins/warnsys/query.rs is not part of this model, so the Current version's `warns` uses the same row model.
- WarnSys: the ids passed to the database, and the `Utc::now()` clock, are left out. The time is a parameter. A failed reply is not modelled: replies are assumed to be sent.
- Streak.Posts.OnMessage: the database calls and the reply are assumed to succeed. In src/modules/streak.rs a failed `get_streak` (:41) aborts before anything is written. A failed `update_timestamp` (:53, :61) aborts before the reply. A failed reply (:50, :58, :63) ends the handler with an error after the write. The model always writes what the decision says and always replies.
- Streak: the reply text keeps the mis-encoded fire emoji characters the source holds. The sub-second part of the message time is not modelled. `streak + 1` does not model `i64` overflow.
- RoleMenus.OnSelect: the role edits and the reply are assumed to succeed. A failed `remove_roles` at src/modules/ftv.rs:214 skips `add_roles` and the reply, and a failed `add_roles` skips the reply. The model always makes both edits and replies.
- RoleMenus.Toggle: the same for `remove_role`/`add_role` at src/modules/nftv.rs:117, 120 and src/plugins/ftvroles/plugin.rs:52, 55. A failed edit skips the reply. The model always edits and replies.
- RoleMenus: the defer call and the ephemeral flag of the reply are left out.
- RoleMenus: the per-row member lookup of src/modules/ftv.rs is modelled as one `found` flag for the whole interaction.
- RoleMenus: the role tables of the source are taken as parameters, except for the fallback emoji constants.
- Greetings.Welcome: every send is assumed to succeed. In src/modules/welcomer.rs a failed send (:51, :78) ends the loop over `GUILDS` with an error, so later entries get no notice. The model sends every notice of `TableNotices`.
- Greetings: avatar URLs are opaque strings, and the embed timestamp is left out.
- Drg: the HTTP request for the deep dives and the JSON decoding are left out.
- Drg.VariantTextLines: splitting the text back into lines needs every stage field to be free of newlines. Without that, `Drg.VariantTextIsJoin` still gives the text.
- OAuth and OpenID handlers, the Discord cache, the SQL plumbing and the library wrapper modules are outside the core.

## Findings

| source | as written | input that shows it | evidently intended | confidence | as-written member | corrected member |
|---|---|---|---|---|---|---|
| src/modules/warnsys.rs:35 | `warns` sorts on the second field of the `(i64, i64, String)` rows, and src/query/warnsys.rs:16-19 fills that field, by position, from `DiscordId`, the user every row belongs to; the list therefore stays in database order and its middle column shows the user's id | two active warnings of one user fetched newest first | sort by, and show, `IssuedAt` | not executed | WarnSys.QueriedSortIsIdentity | WarnSys.IntendedListInIssueOrder |
| src/modules/nftv.rs:108 | the toggle handler parses every component interaction's custom id with `parse().unwrap()`, before checking that it names a role (the same at src/modules/ftvroles.rs:39) | a press on any other component the bot sends, such as the "pg_next" pagination button | ignore ids that are not role ids, as the later src/plugins/ftvroles/plugin.rs:39-41 does | not executed | RoleMenus.NonNumericIdPanics | RoleMenus.PluginIgnoresNonNumericIds |
