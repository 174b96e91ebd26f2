# Vehicle search agent: a verified model of the listing matcher and its surroundings

This project models, in Dafny, the core of a vehicle search agent. The agent
scrapes car marketplaces, matches each scraped listing against a client's
search profile, stores new matches once per external id, and sends one alert
per run.

- **Listing matcher** (`filter_engine.dfy`, `filter_properties.dfy`).
  `FilterEngine.evaluate` takes a listing and a profile and returns
  `(is_match, score)`. The specification is declarative: `Admits`,
  `ModeScore`, `TailScore` and `Verdict`. `FilterEngine.Evaluate` is the
  source's imperative procedure, with its flags, `continue`, `break` and
  early returns, and it is proved equal to `Verdict`. The lemmas state the
  matcher's promises about `Verdict`:
  - vehicle mode is an OR over the criteria with a flat 30;
  - flat mode is an AND of make (+10), model (+20) and year (+5);
  - the thresholds are strict (`> 90`, `> 85`), and the title is only a fallback;
  - falsy values and bounds are ignored;
  - exclude keywords reject; features only add points;
  - every rejection is exactly `(False, 0)`.
- **Agent run** (`agent_manager.dfy`, `database.dfy`). `run_agent` gathers
  listings source by source. In vehicle mode it makes one search per vehicle
  and keeps a consecutive-failure counter with a break at 10. Matches whose
  `external_id` is not stored yet become new rows, and one alert covers
  them. The listing table is a class whose `Valid()` is the `UNIQUE`
  constraint on `external_id`. `run_all_agents` runs the enabled agents
  whose configuration parses.
- **Providers** (`scraping.dfy`, `carfax.dfy`, `cars_com.dfy`,
  `autonation.dfy`, `bring_a_trailer.dfy`, `marketcheck.dfy`). These are the
  pure parts of each scraper: price and mileage parsers, the year from the
  first four-digit run, external ids, absolutised links, search URLs
  (including the Ford Raptor special cases), the Marketcheck hub rotation
  and its API item mapping. A page is given to the model as what the
  selectors found on it.
- **Database URL scrub** (`database.dfy`). This is `init_db`'s removal of
  `sslmode=` and `channel_binding=` query parameters. It is proved
  idempotent.
- **Dashboard** (`dashboard.dfy`). This covers `normalize`,
  `extract_image_urls` with its widest-per-folder dedup, pagination, and the
  row-filter chain.
- Shared modules: `text.dfy` (Python string operations on ASCII text),
  `pyjson.dfy` (JSON values with Python truthiness), `wrappers.dfy`
  (`Option`), `config.dfy` and `listings.dfy` (the configuration records and
  `RawListing`).

Modelling choices:

- `rapidfuzz.fuzz.partial_ratio` is a function-typed parameter whose values
  lie in `[0, 100]` (`FilterEngine.Similarity`). Nothing else is assumed
  about it.
- Every score increment is a whole number, so the score is a `nat`.
- Prices are exact `real`s rather than IEEE floats.
- A provider's `search` is a function from the source name and parameters to
  `Found(listings)` or `Raised`.
- The clock in Marketcheck is two parameters, `dayOfYear` and `hour`.
- The Marketcheck HTTP call is a parameter returning the decoded body, or
  `None` when it raises.
- One observation that is not claimed as a bug: the source's comment says
  the hub index advances by one every four hours. That holds within a year,
  including across midnight (`Marketcheck.MidnightNextHub`). At the new year
  the day of the year restarts, so the index jumps from hub 11 to hub 6
  (`Marketcheck.NewYearJump`).

## Model

| member | source | states |
|---|---|---|
| `FilterEngine.Evaluate` | src/core/filter_engine.py:13-118 | The imperative `evaluate` returns exactly `Verdict`: admitted iff the mode test, price, mileage and exclude tests pass, with score `ModeScore + TailScore`; otherwise `(false, 0)` |
| `FilterEngine.Verdict` | src/core/filter_engine.py:13-118 | Definition of the matcher's answer: `(true, ModeScore + TailScore)` when `Admits`, else `(false, 0)`; `Evaluate` is proved equal to it and the `FilterProperties` lemmas state its properties |
| `FilterEngine.ScoreMode` | src/core/filter_engine.py:20-87 | The mode half admits iff vehicle mode finds a passing criterion, or flat mode passes makes, models and years; the score is then 30, or 10/20/5 per part that applied, and 0 on rejection |
| `FilterEngine.MatchVehicles` | src/core/filter_engine.py:21-50 | The vehicle loop with `continue`/`break` returns true iff some criterion passes make (> 90), model (> 85) and its own inclusive year bounds |
| `FilterEngine.MatchMakes` | src/core/filter_engine.py:53-64 | The make loop returns true iff some profile make fuzzy-matches the listing's make, or the title when the make is empty |
| `FilterEngine.MatchModels` | src/core/filter_engine.py:68-78 | The model loop returns true iff some profile model fuzzy-matches the listing's model, or the title when the model is empty |
| `FilterEngine.FindExcluded` | src/core/filter_engine.py:102-105 | Returns true iff some exclude keyword is a case-insensitive substring of the title |
| `FilterEngine.AddFeatureBonus` | src/core/filter_engine.py:108-113 | Adds exactly 5 per `features_any` entry found case-insensitively in the title |
| `FilterEngine.FeatureHits` | src/core/filter_engine.py:110-113 | The number of feature hits never exceeds the number of features |
| `FilterProperties.RejectionIsExactlyZero` | src/core/filter_engine.py:18-118 | A rejection is exactly `(false, 0)`; an admission scores at least its mode score |
| `FilterProperties.VehicleModeAdmission` | src/core/filter_engine.py:21-50 | With vehicles, admitted iff some criterion holds and the tail passes; the score is 30 plus the tail, however many criteria pass |
| `FilterProperties.VehicleModeIgnoresFlatFields` | src/core/filter_engine.py:21-51 | With vehicles, `makes`, `models`, `year_min` and `year_max` do not affect the verdict |
| `FilterProperties.LaterCriteriaIrrelevant` | src/core/filter_engine.py:45-47 | Criteria after the first passing one do not change the verdict |
| `FilterProperties.FlatModeAdmission` | src/core/filter_engine.py:52-87 | Flat mode admits only if each non-empty list has a hit and the year is within bounds; the score is 10, 20 and 5 for the parts that applied, plus the tail |
| `FilterProperties.StrictThresholds` | src/core/filter_engine.py:25-36 | Similarity 90 fails and 91 passes the make test; 85 fails and 86 passes the model test |
| `FilterProperties.TitleOnlyAsFallback` | src/core/filter_engine.py:25-36 | A non-empty make or model makes the title irrelevant; an empty one makes the test read the title |
| `FilterProperties.AbsentYearNeverRejects` | src/core/filter_engine.py:41-86 | With a missing or zero listing year, removing every year bound (flat and per vehicle) leaves the verdict unchanged |
| `FilterProperties.FalsyBoundsIgnored` | src/core/filter_engine.py:83-98 | A zero `year_min`, `year_max`, `price_max` or `mileage_max` acts as an absent one |
| `FilterProperties.VehicleFalsyBoundsIgnored` | src/core/filter_engine.py:41-43 | A zero `year_min` or `year_max` of one vehicle entry acts as an absent one |
| `FilterProperties.FalsyValuesIgnored` | src/core/filter_engine.py:90-99 | A zero price or mileage on the listing acts as an absent one |
| `FilterProperties.PriceAndMileageRule` | src/core/filter_engine.py:90-99 | A truthy value above a truthy maximum rejects; an admitted truthy price adds exactly 10, an admitted truthy mileage exactly 5 |
| `FilterProperties.ExcludeKeywordRejects` | src/core/filter_engine.py:102-105 | Any exclude keyword in the title rejects with `(false, 0)`, whatever was scored |
| `FilterProperties.EmptyKeywordRejectsAll` | src/core/filter_engine.py:102-105 | An empty exclude keyword rejects every listing |
| `FilterProperties.FeaturesNeverReject` | src/core/filter_engine.py:108-113 | `features_any` never changes whether a listing is admitted |
| `FilterProperties.FeatureBonusPerHit` | src/core/filter_engine.py:108-113 | One more feature adds 5 exactly when it occurs in the title |
| `FilterProperties.UnreadFields` | src/utils/config.py:25-27 | `features_all` and `location` do not affect the verdict |
| `FilterProperties.DefaultProfileAdmitsAll` | src/core/filter_engine.py:52-118 | The default profile admits every listing, scoring only year (5), price (10) and mileage (5) |
| `FilterProperties.ScenarioFlatToyota` | src/core/filter_engine.py:52-93 | A Toyota Supra at 45,000 under a 50,000 cap with flat Toyota/Supra criteria gives `(true, 40)` |
| `FilterProperties.ScenarioSecondVehicle` | src/core/filter_engine.py:21-50 | A listing matching only the second of two vehicles is admitted with 30 |
| `FilterProperties.ScenarioSalvageExcluded` | src/core/filter_engine.py:102-105 | An otherwise admissible listing titled "... Salvage Title" under keyword `salvage` gives `(false, 0)` |
| `Config.CriteriaDefaults` | src/utils/config.py:11-15 | A vehicle criterion requires make and model; its year bounds default to none |
| `Config.ParameterDefaults` | src/utils/config.py:17-28 | Profile lists default to empty; year, price and mileage bounds and location default to none |
| `Config.AgentDefaults` | src/utils/config.py:30-37 | An agent is enabled by default and scheduled `0 */2 * * *` |
| `Listings.RawListingDefaults` | src/data/base_provider.py:5-17 | A listing needs id, source, url and title; the other fields default to none or empty |
| `Listings.CollectListings` | src/data/providers/carfax.py:87-126 | The providers' item loop returns the extracted listings of the items in order, skipping items that are rejected or raise |
| `Listings.FilterMapMembers` | src/data/providers/carfax.py:87-126 | Each kept listing comes from some item, and each accepted item's listing is kept |
| `AgentManager.SearchVehicles` | src/core/agent_manager.py:80-111 | The per-vehicle loop, with its counter and break, collects exactly what `VehicleSearches` specifies |
| `AgentManager.SearchSource` | src/core/agent_manager.py:67-116 | Unknown sources contribute nothing; `bringatrailer` and flat profiles get one search with the unmodified parameters; otherwise the vehicle loop runs |
| `AgentManager.GatherListings` | src/core/agent_manager.py:64-116 | The source loop concatenates each source's listings and searches in configured order |
| `AgentManager.VehicleRequests` | src/core/agent_manager.py:82-93 | The vehicle loop searches vehicles in order with `makes=[make]`, `models=[model]` and that vehicle's year bounds; it makes at least one search and keeps every returned listing in order |
| `AgentManager.VehicleParams` | src/core/agent_manager.py:84-88 | Definition: the profile with `makes = [make]`, `models = [model]` and the vehicle's own year bounds, all else copied |
| `AgentManager.VehicleSearches` | src/core/agent_manager.py:80-111 | Definition of the vehicle loop's result, vehicle by vehicle, stopping after the search that brings the failure count to the limit; `SearchVehicles` is proved equal to it |
| `AgentManager.VehicleLoopBreaks` | src/core/agent_manager.py:90-111 | The loop stops exactly after the first search at which the break condition holds, or runs to the end |
| `AgentManager.CounterCountsTrailingFailures` | src/core/agent_manager.py:91-96 | From zero, the counter equals the number of trailing empty-or-raising searches |
| `AgentManager.VehicleLoopAbandonsAfterTenFailures` | src/core/agent_manager.py:81-111 | An early stop only happens for a source other than marketcheck and bringatrailer, after a returning search that ends ten failures in a row; no earlier returning search ended ten failures |
| `AgentManager.ExemptSourcesSearchEveryVehicle` | src/core/agent_manager.py:102-104 | `marketcheck` searches every vehicle whatever comes back |
| `AgentManager.RaisingSearchesNeverAbandon` | src/core/agent_manager.py:109-111 | Searches that raise increment the counter but never trigger the break |
| `AgentManager.AllSourcesSearched` | src/core/agent_manager.py:67-116 | Every search is for a configured known source; `bringatrailer` and flat-mode searches get the profile unchanged, the others one vehicle's parameters; each known configured source is searched; every gathered listing came from a search |
| `AgentManager.StoreMatches` | src/core/agent_manager.py:128-152 | The store loop appends exactly `NewMatches` to the table, keeps uniqueness, and changes nothing else |
| `AgentManager.NewMatches` | src/core/agent_manager.py:128-152 | Definition: the matched listings whose external id is neither stored nor added earlier in the run, in order; see `NewMatchesSound`, `NewMatchesFresh`, `NewMatchesComplete` |
| `AgentManager.NewMatchesSound` | src/core/agent_manager.py:128-152 | Each new row is the row of a gathered listing the matcher admits, with its score and this agent's id; its external id was not stored before |
| `AgentManager.NewMatchesFresh` | src/core/agent_manager.py:131-137 | New rows have pairwise distinct external ids, none stored before, so the lookup is global across agents |
| `AgentManager.NewMatchesComplete` | src/core/agent_manager.py:128-152 | Every admitted gathered listing has its external id stored after the run |
| `AgentManager.StoreTwiceAddsNothing` | src/core/agent_manager.py:131-137 | Running the store pass again on the same listings adds no row, so a listing is alerted at most once |
| `AgentManager.Recipients` | src/core/agent_manager.py:158 | Recipients are `email_to` when configured, else `[GMAIL_USER]` |
| `AgentManager.AlertedOnlyNew` | src/core/agent_manager.py:161-163 | Marking alerted leaves every row stored before the run unchanged and sets `alerted` on each new row |
| `AgentManager.RunAgent` | src/core/agent_manager.py:61-164 | The new rows are appended and then marked alerted; the agent is registered; an alert is produced iff there are new rows, with the recipients, agent name and rows |
| `AgentManager.AgentsToRun` | src/core/agent_manager.py:44-56 | The agent loop keeps the enabled agents whose configuration parses, in order |
| `AgentManager.RunsExactlyEnabledParsable` | src/core/agent_manager.py:44-56 | Every run configuration is an enabled stored agent's, and every enabled parsable agent runs |
| `AgentManager.RunAllAgents` | src/core/agent_manager.py:40-59 | Every runnable agent ends up in the stored agent ids and no other id is added; every alert names a runnable agent and carries its recipients and at least one listing; at most one alert per running agent |
| `AgentManager.AgentIdsOfMembers` | src/core/agent_manager.py:40-59 | An id is among the ids of a list of configurations exactly when one of them carries it |
| `Database.ListingTable.HasExternalId` | src/core/agent_manager.py:132-134 | The lookup finds a row iff some stored row has the external id |
| `Database.ListingTable.AddListing` | src/storage/database.py:28 | Inserting requires a fresh external id, keeps the `UNIQUE` invariant, and appends the row |
| `Database.ListingTable.MarkAlerted` | src/core/agent_manager.py:162-163 | Sets `alerted` on the rows of the given ids and changes nothing else |
| `Database.WithAlerted` | src/core/agent_manager.py:162-163 | Only rows whose id is in the set get `alerted = true`; all other fields are kept |
| `Database.Supported` | src/storage/database.py:51 | Every kept parameter is an input one not starting with `sslmode=` or `channel_binding=`, and every such input parameter is kept; with none to drop, all are kept |
| `Database.SupportedSingle` | src/storage/database.py:51 | One parameter is kept exactly when it is supported |
| `Database.SupportedConcat` | src/storage/database.py:51 | The filter keeps order: the kept parameters of `a + b` are those of `a` followed by those of `b` |
| `Database.ScrubWithoutQuery` | src/storage/database.py:47 | A URL without `?` passes through unchanged |
| `Database.ScrubWithQuery` | src/storage/database.py:47-52 | The base before the first `?` is kept verbatim; the query is exactly the kept parameters; with none kept the result is the bare base |
| `Database.ScrubRemovesUnsupported` | src/storage/database.py:49-52 | No parameter of a scrubbed URL's query is `sslmode=` or `channel_binding=` |
| `Database.ScrubIdempotent` | src/storage/database.py:47-52 | Scrubbing twice equals scrubbing once |
| `Database.NeonHostUsesSsl` | src/storage/database.py:59 | A `neon.tech` host before the query keeps `ssl` in `connect_args` |
| `Database.ScrubUrl` | src/storage/database.py:47-52 | Definition: the base before the first `?`, then `?` and the `Supported` parameters joined by `&` when any are left; its properties are the `Scrub` lemmas above |
| `Database.UsesSsl` | src/storage/database.py:59 | Definition: `ssl` is requested iff the scrubbed URL contains `neon.tech`; see `NeonHostUsesSsl` |
| `Scraping.ElementText` | src/data/providers/carfax.py:91 | A missing element gives `""`; a non-empty text has no surrounding whitespace |
| `Scraping.Absolutise` | src/data/providers/carfax.py:96-98 | A relative href gets the site origin and then starts with `http`; an `http` href and the empty href are unchanged; a missing href stays missing |
| `Scraping.AbsolutiseIdempotent` | src/data/providers/carfax.py:97-98 | Absolutising twice is absolutising once |
| `Scraping.ParsePrice` | src/data/providers/carfax.py:138-142 | None iff there is no digit or there are two or more dots; otherwise a non-negative decimal: the digits' value when there is no dot, and with one dot the digits before it as the whole part plus the digits after it as the fraction |
| `Text.ParseDecimal` | src/data/providers/carfax.py:140-141 | `float` of digits and dots: None iff there is no digit or two or more dots; a dot-free text is its digits' value; with one dot, the whole digits before it plus the fraction digits after it |
| `Text.DecimalBounds` | src/data/providers/carfax.py:141 | A decimal lies between its whole part and the next integer |
| `Text.DecimalOfParts` | src/data/providers/carfax.py:141 | `float(w + "." + f)` of digit runs is `w` plus the fraction `f`, and fails only for the bare `.` |
| `Scraping.DecimalPriceRoundTrip` | src/data/providers/bring_a_trailer.py:127-135 | A decimal `w.f` framed by digit-free, dot-free text parses back to its value |
| `Scraping.CentsPrice` | src/data/providers/bring_a_trailer.py:127-135 | `"$12.50"` parses to 12.5 |
| `Scraping.PriceRoundTrip` | src/data/providers/autonation.py:102-106 | A whole number framed by digit-free, dot-free text parses back to itself |
| `Scraping.ParseMileage` | src/data/providers/carfax.py:144-148 | None iff the text has no digit; otherwise the non-negative value of all the text's digits read in order |
| `Scraping.MileageRoundTrip` | src/data/providers/cars_com.py:147-151 | A number framed by digit-free text parses back to itself |
| `Scraping.TitleYear` | src/data/providers/carfax.py:110-111 | None iff the title has no four-digit run; otherwise the value of the run at the smallest index where one starts, below 10000 |
| `Scraping.TitleYearOfLeadingYear` | src/data/providers/carfax.py:110-111 | A title whose first digits are a four-digit year gives that year, whatever follows it |
| `Scraping.LastSegmentOr` | src/data/providers/carfax.py:113 | The text after the last `/` of a non-empty URL, a suffix without `/`; the title for an empty URL |
| `Scraping.FirstAsWritten` | src/data/providers/carfax.py:33 | `params.get("makes", [""])[0]` fails iff the list is empty, because the key is always present |
| `Scraping.EmptyMakesRaise` | src/data/providers/carfax.py:33-34 | The default profile, which has no makes, makes the dealer URL builders fail |
| `Scraping.FirstOrEmpty` | src/data/providers/carfax.py:33-34 | The intended first entry, `""` for an empty list, agreeing with the source wherever the source succeeds |
| `Scraping.Slug` | src/data/providers/carfax.py:34 | Position by position, a space becomes `-` and every other character is lowercased; same length, no space, no upper-case letter |
| `Scraping.YearParam` | src/data/providers/carfax.py:54-55 | The year query parameter is empty iff the bound is missing or zero |
| `Scraping.DealerListing` | src/data/providers/carfax.py:89-124 | A card yields a listing iff its title is non-empty and its href is not missing; the listing's URL, external id, year, price and mileage are the parsed fields |
| `Scraping.DealerPageKeepsTitledCards` | src/data/providers/autonation.py:54-90 | Every listing of a dealer page has a title and the page's source; every titled card with an href yields its listing |
| `Carfax.ZipAsWritten` | src/data/providers/carfax.py:38 | `params.get("location", {}).get("zip", ...)` fails iff the profile has no location |
| `Carfax.NoLocationRaises` | src/data/providers/carfax.py:38 | A profile with a make and model but no location cannot build its Carfax URL |
| `Carfax.Zip` | src/data/providers/carfax.py:38 | The intended zip: the location's, or `60601` without one, agreeing with the source wherever it succeeds |
| `Carfax.SearchUrlShape` | src/data/providers/carfax.py:33-55 | The URL is base, `/make/model` path, `?zip=Z`, then `&yearMin=Y` exactly when `year_min` is truthy |
| `Carfax.SearchUrl` | src/data/providers/carfax.py:33-55 | Definition: base, path from the first make and model, zip and optional `yearMin`; its shape is `SearchUrlShape` |
| `Carfax.NoMakeSearchesEverything` | src/data/providers/carfax.py:47-52 | Without a make or year bound, the URL is the base with its zip |
| `CarsCom.SearchModel` | src/data/providers/cars_com.py:50-53 | Ford with a model containing `raptor` gives `ford-f-150-raptor`; otherwise `make-model` |
| `CarsCom.UrlNamesVehicle` | src/data/providers/cars_com.py:55 | The URL names the make and search model and always carries `zip=60601&distance=all` |
| `CarsCom.UrlYear` | src/data/providers/cars_com.py:56-57 | The URL ends in `&year_min=Y` iff the bound is truthy |
| `CarsCom.SearchUrl` | src/data/providers/cars_com.py:46-57 | Definition: `Url` of the lower-cased first make, the slugged first model and `year_min`; see `UrlNamesVehicle` and `UrlYear` |
| `CarsCom.ParsePrice` | src/data/providers/cars_com.py:136-145 | The price is the value of all the digits; None iff there are no digits or the value is above 10,000,000 |
| `CarsCom.CentsRunTogether` | src/data/providers/cars_com.py:138-141 | `$D.C` reads as `D * 10^len(C) + C` up to the cap |
| `CarsCom.PriceCapBoundary` | src/data/providers/cars_com.py:143 | A whole number is kept up to and including 10,000,000 and dropped above it |
| `CarsCom.ExternalId` | src/data/providers/cars_com.py:110-111 | The digit run after the first `listing/` that is followed by a digit; the whole URL when there is none |
| `CarsCom.CardListing` | src/data/providers/cars_com.py:88-122 | A card yields a listing iff its title is non-empty and its href is not missing; the listing has the `listing/` id, title year, capped price and mileage |
| `AutoNation.Url` | src/data/providers/autonation.py:33-37 | Ford with a model containing `raptor` uses the fixed `make=Ford&model=F-150&trim=Raptor` query; otherwise `?make=..&model=..` |
| `AutoNation.SearchUrl` | src/data/providers/autonation.py:30-37 | Definition: `Url` of the lower-cased first make and the slugged first model |
| `BringATrailer.UrlYear` | src/data/providers/bring_a_trailer.py:86-88 | None iff the URL has no `/dddd-`; otherwise the year of the `/dddd-` at the smallest index where one starts |
| `BringATrailer.UrlYearOfFirstSlug` | src/data/providers/bring_a_trailer.py:86-88 | A URL whose first `/` opens a `/dddd-` slug gives that slug's year, whatever follows |
| `BringATrailer.Year` | src/data/providers/bring_a_trailer.py:80-88 | The title year; when it is missing or 0 and the URL is non-empty, the URL's `/dddd-` year if there is one |
| `BringATrailer.DollarText` | src/data/providers/bring_a_trailer.py:97-101 | The first `$` followed by digits or commas, with the whole run; `""` when there is none |
| `BringATrailer.PriceText` | src/data/providers/bring_a_trailer.py:92-101 | Definition: the price element's stripped text when there is one, else `DollarText` of the card's text |
| `BringATrailer.ExternalId` | src/data/providers/bring_a_trailer.py:106 | The title for an empty URL; otherwise a suffix of the URL stripped of outer `/`, holding no `/`, and preceded by a `/` unless it is the whole stripped URL: the last `/`-separated segment |
| `BringATrailer.SlugIsExternalId` | src/data/providers/bring_a_trailer.py:106 | For `.../listing/<slug>/` the external id is the slug |
| `BringATrailer.CardListing` | src/data/providers/bring_a_trailer.py:61-116 | A card yields a listing iff its href is not missing, even without a title; the listing has the fallback year and price and no mileage |
| `Marketcheck.HubIndex` | src/data/providers/marketcheck.py:48-49 | The hub index is always a valid index into the 12 hubs |
| `Marketcheck.NextSlotNextHub` | src/data/providers/marketcheck.py:47-48 | Four hours later on the same day, the next hub mod 12 |
| `Marketcheck.MidnightNextHub` | src/data/providers/marketcheck.py:47-48 | Four hours later across midnight within a year, still the next hub mod 12 |
| `Marketcheck.NewYearJump` | src/data/providers/marketcheck.py:44-48 | At the new year the index goes from 11 to 6, not to the next hub |
| `Marketcheck.PlanQuery` | src/data/providers/marketcheck.py:31-59 | No request iff the API key is empty; otherwise `rows=50`, `radius=100`, the current hub, the first make and model, and the year bound |
| `Marketcheck.Search` | src/data/providers/marketcheck.py:31-93 | No listing without a key or when the request fails; otherwise the converted items of the response, in order |
| `Marketcheck.ResponseListings` | src/data/providers/marketcheck.py:73-89 | Every listing of a response is the conversion of one of its item objects and is tagged `marketcheck` |
| `Marketcheck.FloatField` | src/data/providers/marketcheck.py:80 | A falsy value becomes none; a non-zero integer or float converts exactly |
| `Marketcheck.IntField` | src/data/providers/marketcheck.py:81-82 | A falsy value becomes none; a non-zero integer is kept; a non-zero float is cut toward zero |
| `Marketcheck.IntFieldReadsRendered` | src/data/providers/marketcheck.py:81-82 | `int` of the text of any integer, with any surrounding whitespace, gives back that integer |
| `Marketcheck.FloatFieldReadsRendered` | src/data/providers/marketcheck.py:80 | `float` of the text of any non-zero integer, with any surrounding whitespace, gives that number |
| `Marketcheck.FloatFieldReadsDecimal` | src/data/providers/marketcheck.py:80 | `float` of a padded decimal `w.f` with an optional sign gives its value, negated after `-` (`" 12.5 "` is 12.5) |
| `Text.FloatTextReadsDecimal` | src/data/providers/marketcheck.py:80 | `float` of a whitespace-padded, optionally signed decimal `w.f` is its value, negated after `-` |
| `Text.Truncate` | src/data/providers/marketcheck.py:81-82 | `int` of a float: for `x >= 0` the largest integer not above `x`, for `x < 0` the smallest not below it |
| `Text.StripPadded` | src/data/providers/carfax.py:91 | `strip` removes exactly the padding around a text that neither starts nor ends with a stripped character |
| `Marketcheck.TitleField` | src/data/providers/marketcheck.py:79 | `heading` when present, else `"{year} {make} {model}"` |
| `Marketcheck.DefaultTitle` | src/data/providers/marketcheck.py:79 | Definition: `str` of `year`, `make` and `model`, separated by single spaces, `None` for a missing key |
| `Marketcheck.ItemListing` | src/data/providers/marketcheck.py:74-88 | The external id is `str(id)`, or `""` without one; the title follows `heading`; price is the `float` conversion of `price`, mileage and year the `int` conversions of `miles` and `year`, make and model the values of those keys; location is `str(city) + ", " + str(state)`; raw data is the item; a non-text `vdp_url` rejects |
| `Marketcheck.ItemKeptIff` | src/data/providers/marketcheck.py:74-88 | An item is kept iff its URL and heading are text or absent, `price`, `miles` and `year` convert, and `make` and `model` are text or absent |
| `Marketcheck.PlainItem` | src/data/providers/marketcheck.py:75-87 | A complete item with id, URL and heading maps to the listing its fields say |
| `Dashboard.Normalize` | src/ui/app.py:242-258 | The step-by-step `normalize` equals `NormalizedText` |
| `Dashboard.NormalizedIsUrl` | src/ui/app.py:242-254 | A result exists iff the input is a string whose cleaned text contains `http`; it then starts with `http` and holds neither `%20` nor a space |
| `Dashboard.StartAtHttpIff` | src/ui/app.py:247-250 | After dropping the text before the first `http`, the text starts with `http` iff it contained it |
| `Dashboard.CutAt` | src/ui/app.py:253-254 | The cut is a prefix that no longer contains the separator, and the whole text when it had none |
| `Dashboard.LargestPerFolder` | src/ui/app.py:283-295 | The dedup loop returns exactly the picks of `PickAll`, in first-seen folder order |
| `Dashboard.PicksEarliest` | src/ui/app.py:291-293 | On equal widths, the URL seen first stays |
| `Dashboard.PicksInFirstSeenOrder` | src/ui/app.py:294-295 | Folders are listed in the order their first URL appears |
| `Dashboard.LargestPerFolderSpec` | src/ui/app.py:283-295 | One input URL per folder, each the widest of its folder, and every folder represented |
| `Dashboard.Folder` | src/ui/app.py:285-288 | `rsplit("/", 1)` round trip: folder, `/` and the file name give back the URL; a URL without `/` has the empty folder |
| `Dashboard.Width` | src/ui/app.py:289-290 | Definition: the number formed by the file name's digits, 0 without digits |
| `Dashboard.ExtractImageUrls` | src/ui/app.py:239-295 | `extract_image_urls` equals `ImageUrls`: candidates from the four top keys, then `media.photo_links` and `media.images`, then deduped |
| `Dashboard.ImageUrlsPerFolder` | src/ui/app.py:260-295 | A non-dict gives `[]`; each result is a normalised candidate, one per folder, the widest of its folder, covering every folder |
| `Dashboard.TotalPages` | src/ui/app.py:229 | At least 1; the pages hold all rows, and the last page is non-empty when there are rows |
| `Dashboard.PageRows` | src/ui/app.py:235-237 | A page shows at most `size` rows: full pages before the end, none past it |
| `Dashboard.PagesCoverRows` | src/ui/app.py:228-237 | Pages 1 to `total_pages` read in turn show every row once, in order |
| `Dashboard.PagesInRangeAreFilled` | src/ui/app.py:229-237 | Every page the widget allows is non-empty when there are rows |
| `Dashboard.ApplyFilters` | src/ui/app.py:166-206 | The filter chain, reassigning `f`, leaves exactly `Shown` |
| `Dashboard.ShownMembers` | src/ui/app.py:168-206 | A row is shown iff it is an input row that every active filter admits |
| `Dashboard.Shown` | src/ui/app.py:166-206 | Never longer than the input; its members are stated by `ShownMembers` |
| `Dashboard.MissingValuesPass` | src/ui/app.py:171-206 | A row without year, price and mileage passes every range filter |
| `Dashboard.DefaultsHideOnlyOldRows` | src/ui/app.py:156-206 | With the default widgets, a row is shown iff its year is missing or at least 1900 |
| `Dashboard.KeywordIgnoresCase` | src/ui/app.py:182-191 | The keyword filter ignores the keyword's case |
| `Dashboard.KeywordFindsMake` | src/ui/app.py:182-191 | A keyword equal to the make, in any case, finds the row |

## Left out

- Browser automation, HTTP and navigation in every provider's `search`: Playwright, selectors, scrolling, warm-up, 403 handling and sleeps are I/O. The model receives what the selectors found on the page.
- BaT's choice between the card itself and its first `a` as the link is given to the model as the link already chosen.
- `rapidfuzz.fuzz.partial_ratio` is an uninterpreted similarity in `[0, 100]`, because it is a foreign library.
- `asyncio.gather` fan-out, the scheduler and the startup YAML sync are concurrency and orchestration. `RunAllAgents` runs the agents one after another.
- `load_agents_from_yaml` is file and YAML I/O.
- SQLAlchemy sessions, commits and engine creation are left out. The store is a class holding rows and agent ids. `last_seen` is not modelled because the code never refreshes it on re-observation.
- Email composition and sending are network I/O. The alert is returned as a value. `send_listing_alerts` catches every send error, so `run_agent` marks the new rows alerted whether or not the mail went out; the model does the same.
- The dashboard's `fmt_money` and `fmt_int`, pandas sorting, the "last 7 days" filter (it reads the clock), and the toggle, delete and save handlers are left out.
- `Dashboard.KeywordFindsMake`: pandas `str.contains` treats the keyword as a regular expression. The model treats it as a literal substring.
- Case folding, whitespace stripping and digits are ASCII only. The Unicode spaces Python also strips (`\x85`, `\xa0` and others) and the Unicode digits that Python's `\d` accepts are not modelled.
- `float(...)` prices and JSON numbers with a fraction are exact decimals, not IEEE-754. Python's `float` spellings beyond a sign, digits and dots (exponents, `inf`, `nan`) are not modelled for Marketcheck strings.
- `Marketcheck.IntField`: a string with underscores between digits (`"1_000"`), which `int` accepts, is rejected by the model.
- `Marketcheck.FloatField`: a string with underscores between digits, which `float` accepts, is rejected by the model.
- `PyJson.PyStr`: `str` of a list, a dict or a float with a fraction is rendered as the empty text instead of Python's `repr`; a whole float is `N.0`, as in Python below `1e16`.
- `Marketcheck.ItemListing`: inherits the three lines above for `price`, `miles`, `year`, `id`, `make`, `model`, `city` and `state` values of those shapes.
- `Marketcheck.PlanQuery`: it uses the intended first make and model. As written, an empty `makes` or `models` list raises before the request (see Findings).
- `datetime.now()` in Marketcheck is replaced by the `dayOfYear` and `hour` parameters.
- The TypeScript frontend (`app/`, `db/`, `tailwind.config.js`) is UI and ORM. `db/schema.ts` only restates the `external_id` uniqueness.

## Findings

| source | as written | input that shows it | evidently intended | confidence | as-written member | corrected member |
|---|---|---|---|---|---|---|
| src/data/providers/carfax.py:33-34 | `params.get("makes", [""])[0]`: the parameters come from `model_dump()`, which always includes `makes`, so the `[""]` default never applies. An empty list raises `IndexError` before the URL is built (the same line is in cars_com.py:46-47, autonation.py:30-31 and marketcheck.py:38-39) | a flat profile with `makes: []`, e.g. `AgentParameters()` | take `""` when the list is empty | medium, not executed | `Scraping.FirstAsWritten`, `Scraping.EmptyMakesRaise` | `Scraping.FirstOrEmpty` |
| src/data/providers/carfax.py:38 | `params.get("location", {}).get("zip", "60601")`: `model_dump()` puts `location: None`, so the `{}` default never applies and `None.get` raises | a profile without `location`, e.g. `AgentParameters(makes := ["BMW"], models := ["M3"])` | zip `60601` when no location is configured | medium, not executed | `Carfax.ZipAsWritten`, `Carfax.NoLocationRaises` | `Carfax.Zip` |
