# 1031 exchange site: content pipeline model

This project models the data logic of a marketing website for 1031
exchanges. The site serves the Fort Worth area. The model covers these parts:

- **Batch merge.** Location and service content is authored in several
  slug-keyed batches. These are combined with JavaScript object spread, so the
  latest batch that has a slug supplies that slug's whole entry. A key keeps
  the position of its first insertion. `ObjectSpread` models spread as an
  association list in `Object.keys` order. `BatchData` models the single-record
  accessors.
- **Catalogue building** (`MergeBatchData`). Each merged slug becomes a
  location or service item. It gets a name, a text, a route, a type or
  category, and for locations an image path. Then a base list is overridden
  by the batch list.
- **Helpers of the builders.** `Classification` holds the first-match
  keyword rules. `LocationImages` holds the image resolver with its
  `halton-city` typo fix. `NameExtraction` holds the name cascade with its
  exception tables and title-casing. It also holds the first-paragraph
  extractor and the 200-character cut.
- **Consumers.** `LocationsData` is the published location list.
  `LocationsDirectory` and `HomeServiceArea` are the two search filters.
  `SiteConstants` holds the site constants.
- **The contact form** (`ContactFormModel`). This covers its validator, the
  contextual note and the disabled rule. It also covers a `ContactForm`
  class whose methods are the component's event handlers.

`Text` and `Lists` model the JavaScript built-ins the code relies on:
`trim`, `toLowerCase`, `includes`, `split`, `join`, `startsWith` and
`filter`.

Every input the code reads from outside is a parameter:

- the batch modules;
- the site configuration;
- the regular expressions of the name cascade;
- the captcha widget's callbacks.

The system's specification says the alias `halton-city` is normalised to
`haltom-city` before name and description extraction. The code differs in
two ways:

- It corrects the alias only in the image resolver and in the location name
  table.
- The name table is read only when the entry has a description and neither
  name pattern matches. A `halton-city` entry without a description is
  named "Halton City".

The model follows the code. `MergeBatchData.HaltonNameWithoutDescription`
states the "Halton City" case.

## Model

| member | source | states |
|---|---|---|
| `Text.Trim` | components/locations/LocationsDirectory.tsx:17 | `trim()`: the result has no white space at either end and is at most as long as the input; `TrimBounds` and `TrimUnique` pin it down as the text between the leading and trailing white space |
| `Text.TrimUnique` | components/locations/LocationsDirectory.tsx:17 | a string that is white space, then a trimmed core, then white space trims to that core |
| `Text.TrimIgnoresSurroundingSpace` | components/home/HomeServiceArea.tsx:17-18 | white space added around a string does not change its trim |
| `Text.BlankIffAllWhiteSpace` | app/contact/contact-form.tsx:141-147 | `!s.trim()` holds exactly when every character is white space |
| `Text.ToLower` | components/locations/LocationsDirectory.tsx:17-19 | `toLowerCase()` keeps the length and maps each character through the ASCII lower-case table |
| `Text.ToLowerTrimCommute` | components/locations/LocationsDirectory.tsx:17 | lower-casing then trimming equals trimming then lower-casing |
| `Text.ToLowerIdempotent` | components/locations/LocationsDirectory.tsx:19 | lower-casing twice is lower-casing once |
| `Text.ContainsIff` | components/locations/LocationsDirectory.tsx:19 | `includes(t)` holds exactly when `t` occurs at some index of the string |
| `Text.ContainsEmpty` | components/locations/LocationsDirectory.tsx:18-19 | every string includes the empty string |
| `Text.Split` | lib/merge-batch-data.ts:184-185 | `split("-")`: there is at least one part and no part holds the separator |
| `Text.Join` | lib/merge-batch-data.ts:187 | `join(" ")`, the parts with the separator between each two; `JoinSplit` states it |
| `Text.JoinSplit` | lib/merge-batch-data.ts:184-187 | joining the parts of a split with the same separator gives back the string |
| `Lists.FilterIsSubsequence` | lib/merge-batch-data.ts:255 | `filter` keeps its items in their original order |
| `Lists.FilterCounts` | lib/merge-batch-data.ts:255 | `filter` keeps each passing item exactly as many times as the input holds it and drops every other |
| `ObjectSpread.Get` | lib/batch-data.ts:12 | a lookup finds a value exactly when the key is one of the object's keys |
| `ObjectSpread.Put` | lib/merge-batch-data.ts:61-67 | one assignment `o[k] = v`; its properties are `PutGet` and `PutKeys` |
| `ObjectSpread.Spread` | lib/merge-batch-data.ts:61-67 | `{...m, ...n}`, the assignments of `n`'s keys in order; its properties are `SpreadKeys` and `SpreadGet` |
| `ObjectSpread.SpreadAll` | lib/merge-batch-data.ts:61-67 | the spread of several batches in order; its properties are `SpreadAllKeys`, `SpreadAllGet` and `SpreadAllHasKey` |
| `ObjectSpread.PutGet` | lib/merge-batch-data.ts:61-67 | assigning a key stores the value under it and leaves every other key's value alone |
| `ObjectSpread.PutKeys` | lib/merge-batch-data.ts:61-67 | assigning keeps the key order; a new key goes to the end |
| `ObjectSpread.SpreadKeys` | lib/merge-batch-data.ts:61-67 | the keys of `{...m, ...n}` are those of `m` then the new ones of `n`, each at its first insertion |
| `ObjectSpread.SpreadGet` | lib/merge-batch-data.ts:61-67 | in `{...m, ...n}` the value of a key is `n`'s wherever `n` has it, otherwise `m`'s |
| `ObjectSpread.SpreadAllKeys` | lib/merge-batch-data.ts:61-69 | the merged keys are all partition keys, each once, in first-insertion order, and distinct |
| `ObjectSpread.SpreadAllGet` | lib/batch-data.ts:7-12 | last writer wins: the merged value is the whole entry of the last partition with the key |
| `ObjectSpread.SpreadAllHasKey` | lib/batch-data.ts:7-12 | the merged object has a key exactly when some partition has it |
| `ObjectSpread.LastWith` | lib/batch-data.ts:7-11 | the index found is a partition with the key and no later partition has it |
| `BatchData.OrNull` | lib/batch-data.ts:12 | `|| null` keeps a record and turns an absent or falsy entry into null |
| `BatchData.GetServiceBatchData` | lib/batch-data.ts:6-13 | the service accessor only ever returns a record |
| `BatchData.GetLocationBatchData` | lib/batch-data.ts:16-25 | the location accessor only ever returns a record |
| `BatchData.ServiceBatchDataLastWins` | lib/batch-data.ts:6-13 | the service entry is that of the latest of batches 01 to 03 holding the slug, taken whole from one batch |
| `BatchData.LocationBatchDataLastWins` | lib/batch-data.ts:16-25 | the location entry is that of the latest of batches 01 to 05 holding the slug, taken whole from one batch |
| `BatchData.LatestEntryIsWholeEntry` | lib/batch-data.ts:7-12 | a non-null answer is exactly one batch's entry for the slug |
| `BatchData.ServiceBatchDataMissing` | lib/batch-data.ts:12 | a slug in no batch yields null |
| `BatchData.GetInventoryBatchData` | lib/batch-data.ts:28-30 | the spotlight list is returned unchanged, or empty when undefined |
| `Classification.FirstMatchIsFirst` | lib/merge-batch-data.ts:72-79 | a rule table answers with the result of the first rule that holds |
| `Classification.FirstMatchDefault` | lib/merge-batch-data.ts:72-79 | a rule table answers with the default when no rule holds |
| `Classification.LocationTypeOf` | lib/merge-batch-data.ts:72-79 | the location type if-chain; `LocationTypeByRules`, `RemoteExactly` and `DistrictFirst` state it |
| `Classification.ServiceCategoryOf` | lib/merge-batch-data.ts:130-143 | the service category if-chain; `ServiceCategoryByRules`, `StructuresFirst`, `ExchangeReportingIsStructure` and `MultiPropertyExchangeIsPropertyPath` state it |
| `Classification.LocationTypeByRules` | lib/merge-batch-data.ts:72-79 | the location type is the first match of: district keywords, exactly `remote`, suburb keywords, else city |
| `Classification.ServiceCategoryByRules` | lib/merge-batch-data.ts:130-143 | the service category is the first match of the six ordered rules, else Property Paths |
| `Classification.RemoteExactly` | lib/merge-batch-data.ts:75-76 | the type is remote exactly when the slug is `remote` |
| `Classification.DistrictFirst` | lib/merge-batch-data.ts:73-74 | any district keyword makes a district whatever else the slug holds |
| `Classification.StructuresFirst` | lib/merge-batch-data.ts:131-132 | `exchange` without `property` is always Structures |
| `Classification.ExchangeReportingIsStructure` | lib/merge-batch-data.ts:131-136 | `exchange-reporting` is Structures, not Reporting |
| `Classification.MultiPropertyExchangeIsPropertyPath` | lib/merge-batch-data.ts:131-134 | `exchange` together with `property` falls through to Property Paths |
| `LocationImages.NormalizeSlug` | lib/merge-batch-data.ts:53 | only `halton-city` is rewritten, and never survives normalisation |
| `LocationImages.LocationImagePath` | lib/merge-batch-data.ts:51-57 | the path is undefined exactly when the normalised slug is not in the table, and otherwise starts with `/locations/1031-exchange-` |
| `LocationImages.ExtensionsKnown` | lib/merge-batch-data.ts:13-48 | every extension in the table is jpg, jpeg, png or webp |
| `LocationImages.ImagePathTemplate` | lib/merge-batch-data.ts:54-56 | a known slug's path is `/locations/1031-exchange-` + slug + `-tx.` + extension |
| `LocationImages.HaltonAlias` | lib/merge-batch-data.ts:52-56 | `halton-city` and `haltom-city` resolve to the same path, which names `haltom-city` |
| `LocationImages.TypoEntryUnused` | lib/merge-batch-data.ts:28 | the table's own `halton-city` entry is never consulted |
| `LocationImages.UnknownSlugHasNoImage` | lib/merge-batch-data.ts:55 | an unknown slug has no image |
| `NameExtraction.Capitalize` | lib/merge-batch-data.ts:186 | capitalising a word keeps its length |
| `NameExtraction.CapitalizeAll` | lib/merge-batch-data.ts:185-186 | every word is capitalised, in place |
| `NameExtraction.TitleCase` | lib/merge-batch-data.ts:184-187 | split on `-`, capitalise each word, join with spaces; `TitleCaseChars`, `TitleCaseSpaces` and `UnlistedSlugName` state it |
| `NameExtraction.NameFromSlug` | lib/merge-batch-data.ts:181-187 | the exception table's name when truthy, else the title case; `LocationNameFallback` and `ServiceNameFallback` state it |
| `NameExtraction.ExtractLocationName` | lib/merge-batch-data.ts:156-188 | `extractLocationName`; `LocationNameCascade` and `LocationNameFallback` state it |
| `NameExtraction.ExtractServiceName` | lib/merge-batch-data.ts:191-238 | `extractServiceName`; `ServiceNameCascade` and `ServiceNameFallback` state it |
| `NameExtraction.TitleCaseStep` | lib/merge-batch-data.ts:184-187 | the title case is the first word capitalised, a space, then the title case of the rest |
| `NameExtraction.CapitalizeChars` | lib/merge-batch-data.ts:186 | a word without hyphens has only its first character upper-cased |
| `NameExtraction.TitleCaseChars` | lib/merge-batch-data.ts:184-187 | title-casing keeps the length, turns hyphens into spaces and upper-cases only the first character of each token |
| `NameExtraction.TitleCaseSpaces` | lib/merge-batch-data.ts:184-187 | the title case has a space exactly where the slug has a hyphen |
| `NameExtraction.TablesHaveNames` | lib/merge-batch-data.ts:168-183 | no name in either exception table is empty, so a listed slug always takes its table name |
| `NameExtraction.StripArticle` | lib/merge-batch-data.ts:202 | removing `A ` then `An ` drops 0, 2, 3 or 5 leading characters and nothing else, and a name with neither article is unchanged |
| `NameExtraction.StripArticleRemoves` | lib/merge-batch-data.ts:202 | a leading `A ` is removed, a leading `An ` is removed, and `A An ` loses both articles |
| `NameExtraction.FirstOfTwo` | lib/merge-batch-data.ts:158-166 | of two attempts the first success wins, else the fallback |
| `NameExtraction.LocationNameCascade` | lib/merge-batch-data.ts:156-188 | the location name is the first of the two trimmed pattern captures that matches, else the fallback |
| `NameExtraction.ServiceNameCascade` | lib/merge-batch-data.ts:191-238 | the service name is the first of the two captures, the second without its article, else the fallback |
| `NameExtraction.LocationNameFallback` | lib/merge-batch-data.ts:181-187 | with no match the location name is its table entry, else the title-cased slug |
| `NameExtraction.ServiceNameFallback` | lib/merge-batch-data.ts:231-237 | with no match the service name is its table entry, else the title-cased slug |
| `NameExtraction.UnlistedSlugName` | lib/merge-batch-data.ts:184-187 | `some-unlisted-slug` is named `Some Unlisted Slug` |
| `NameExtraction.RunEnd` | lib/merge-batch-data.ts:242 | `[^<]+` consumes exactly up to the next `<` or the end |
| `NameExtraction.RunEndAt` | lib/merge-batch-data.ts:242 | the run ends at the first `<` at or after its start |
| `NameExtraction.CaptureIsRun` | lib/merge-batch-data.ts:242 | any capture of `<p>([^<]+)<` spans exactly the run after `<p>` |
| `NameExtraction.MatchUnique` | lib/merge-batch-data.ts:242 | the capture at a given index is unique |
| `NameExtraction.RunIsCapture` | lib/merge-batch-data.ts:242 | a non-empty run after `<p>` that stops at a `<` is a capture |
| `NameExtraction.ParagraphAt` | lib/merge-batch-data.ts:242 | the pattern is tried at one index: a capture when it matches there, none when nothing matches there |
| `NameExtraction.FindParagraph` | lib/merge-batch-data.ts:242-243 | the search returns the leftmost match, or none when the pattern matches nowhere |
| `NameExtraction.ExtractFirstParagraph` | lib/merge-batch-data.ts:241-247 | `extractFirstParagraph`; `FirstParagraphIsLeftmost` and `FirstParagraphNoMatch` state it |
| `NameExtraction.FirstParagraphIsLeftmost` | lib/merge-batch-data.ts:241-245 | the first paragraph is the trimmed capture of the leftmost match |
| `NameExtraction.FirstParagraphNoMatch` | lib/merge-batch-data.ts:246 | the first paragraph is empty when the pattern matches nowhere |
| `NameExtraction.FirstParagraphExample` | lib/merge-batch-data.ts:241-245 | a concrete description gives its trimmed first paragraph |
| `NameExtraction.Shorten` | lib/merge-batch-data.ts:148 | the short text is at most 200 characters, unchanged up to 200, else the first 197 plus `...` |
| `NameExtraction.ShortenIdempotent` | lib/merge-batch-data.ts:148 | cutting an already cut text changes nothing |
| `SiteConstants.OrDefault` | lib/constants.ts:3-4 | a missing or empty value takes the fallback, any other is kept |
| `SiteConstants.PrimaryCity` | lib/constants.ts:3 | the city is never empty: the configured one or Fort Worth |
| `SiteConstants.PrimaryStateAbbr` | lib/constants.ts:4 | the state is never empty: the configured one or TX |
| `SiteConstants.StripScheme` | lib/constants.ts:5 | stripping only removes a prefix |
| `SiteConstants.SiteUrl` | lib/constants.ts:5 | the site URL always starts with `https://` |
| `SiteConstants.StripSchemeInverse` | lib/constants.ts:5 | one leading `https://` or `http://` is removed, and only one |
| `SiteConstants.StripSchemeKeepsBareHost` | lib/constants.ts:5 | a website without a scheme is kept as is |
| `SiteConstants.SiteUrlHost` | lib/constants.ts:5 | the URL is `https://` + stripped website, or the default host when that is missing or empty |
| `SiteConstants.SiteUrlUpgradesScheme` | lib/constants.ts:5 | an `http://` website becomes an `https://` URL |
| `SiteConstants.SiteUrlIdempotent` | lib/constants.ts:5 | configuring the computed URL as the website gives the same URL |
| `MergeBatchData.Description` | lib/merge-batch-data.ts:83 | a description is read only from a record with a non-empty `mainDescription` |
| `MergeBatchData.DescriptionOrNull` | lib/merge-batch-data.ts:83 | a falsy entry has no description, so `|| null` does not change it |
| `MergeBatchData.BuildLocation` | lib/merge-batch-data.ts:70-102 | the item built for one location slug; `LocationItemShape`, `LocationFromLatest` and `HaltonNameWithoutDescription` state it |
| `MergeBatchData.BuildService` | lib/merge-batch-data.ts:115-151 | the item built for one service slug; `ServiceItemShape` and `ServiceFromLatest` state it |
| `MergeBatchData.GetLocationsFromBatches` | lib/merge-batch-data.ts:60-104 | `getLocationsFromBatches()`; `LocationsInInsertionOrder`, `LocationSlugsCoverBatches` and `LocationItemFromLatestBatch` state it |
| `MergeBatchData.GetServicesFromBatches` | lib/merge-batch-data.ts:107-153 | `getServicesFromBatches()`; `ServicesInInsertionOrder` and `ServiceItemFromLatestBatch` state it |
| `MergeBatchData.LocationsOf` | lib/merge-batch-data.ts:69-103 | one location per merged key, in key order |
| `MergeBatchData.ServicesOf` | lib/merge-batch-data.ts:114-152 | one service per merged key, in key order |
| `MergeBatchData.LocationsInInsertionOrder` | lib/merge-batch-data.ts:61-69 | location slugs are the batch slugs, each once, in first-insertion order |
| `MergeBatchData.ServicesInInsertionOrder` | lib/merge-batch-data.ts:108-114 | service slugs are the batch slugs, each once, in first-insertion order |
| `MergeBatchData.LocationSlugsCoverBatches` | lib/merge-batch-data.ts:61-69 | a slug has a location exactly when some location batch has it |
| `MergeBatchData.LocationItemShape` | lib/merge-batch-data.ts:91-101 | route is `/locations/` + slug, type is the slug's type, and `heroImage` is present exactly when the image path is defined |
| `MergeBatchData.MergedDescriptionIsLatest` | lib/merge-batch-data.ts:61-70 | the description read for a slug is that of the latest batch having the slug |
| `MergeBatchData.LocationFromLatest` | lib/merge-batch-data.ts:69-100 | each location's name and description come from the latest batch holding its slug |
| `MergeBatchData.LocationItemFromLatestBatch` | lib/merge-batch-data.ts:60-104 | over batches 01 to 05, each location's name and description come from the latest batch holding its slug |
| `MergeBatchData.ServiceItemShape` | lib/merge-batch-data.ts:129-150 | route is `/services/` + slug, category is the slug's category, short text at most 200 characters |
| `MergeBatchData.ServiceFromLatest` | lib/merge-batch-data.ts:114-148 | each service's name and short text come from the latest batch holding its slug |
| `MergeBatchData.ServiceItemFromLatestBatch` | lib/merge-batch-data.ts:107-153 | over batches 01 to 03, each service's name and short text come from the latest batch holding its slug |
| `MergeBatchData.HaltonNameWithoutDescription` | lib/merge-batch-data.ts:83-91 | without a description `halton-city` is named "Halton City" yet shows the `haltom-city` image |
| `MergeBatchData.HaltonTitle` | lib/merge-batch-data.ts:85-88 | `halton-city` title-cases to "Halton City" |
| `MergeBatchData.SlugsOf` | lib/merge-batch-data.ts:252 | the slug list has one slug per item, in order |
| `MergeBatchData.Override` | lib/merge-batch-data.ts:250-256 | the shared body of the two merges; `OverrideShape`, `OverrideBatchWins`, `OverrideSlugs` and `OverrideKeepsDistinct` state it |
| `MergeBatchData.GetMergedLocations` | lib/merge-batch-data.ts:250-257 | `getMergedLocations(base)`, the override of the base by the batch locations; `MergedLocationsDistinct` states it |
| `MergeBatchData.GetMergedServices` | lib/merge-batch-data.ts:260-267 | `getMergedServices(base)`, the override of the base by the batch services; `MergedServicesDistinct` states it |
| `MergeBatchData.OverrideShape` | lib/merge-batch-data.ts:250-256 | the result is the surviving base items in order, none sharing a batch slug, then the whole batch list; every base item with a new slug survives |
| `MergeBatchData.OverrideCounts` | lib/merge-batch-data.ts:250-256 | a base item whose slug the batch lacks occurs as many times as in the base, plus its occurrences in the batch; a base item with a batch slug occurs only as the batch holds it |
| `MergeBatchData.OverrideBatchWins` | lib/merge-batch-data.ts:252-256 | an item whose slug the batch has comes from the batch |
| `MergeBatchData.OverrideSlugs` | lib/merge-batch-data.ts:250-256 | a slug is in the result exactly when the base or the batch has it |
| `MergeBatchData.FilterKeepsDistinct` | lib/merge-batch-data.ts:255 | filtering keeps slugs distinct |
| `MergeBatchData.OverrideKeepsDistinct` | lib/merge-batch-data.ts:250-256 | distinct base and batch slugs give distinct result slugs |
| `MergeBatchData.OverrideExample` | lib/merge-batch-data.ts:250-256 | base `a, b` and batch `b', c` give `a, b', c` |
| `MergeBatchData.MergedLocationsDistinct` | lib/merge-batch-data.ts:250-257 | merged locations have distinct slugs when the base does |
| `MergeBatchData.MergedServicesDistinct` | lib/merge-batch-data.ts:260-267 | merged services have distinct slugs when the base does |
| `LocationsData.ListedLocations` | data/locations.ts:6-8 | no listed location is `remote` or lacks an image, and every other one is listed as many times as the batches give it |
| `LocationsData.ListedKeepsOrder` | data/locations.ts:6-8 | the listing is an order-preserving sublist |
| `LocationsData.ListedIffImage` | data/locations.ts:7 | a batch location is listed exactly when its corrected slug is in the image table |
| `LocationsData.RemoteHasNoImage` | data/locations.ts:7 | `remote` has no image |
| `LocationsData.ListedLocationsShape` | data/locations.ts:6-8 | listed locations are never of type remote and all carry a defined image path |
| `LocationsData.GetLocationsData` | data/locations.ts:6-8 | `locationsData`, the listing of the batch locations; `ListedLocationsShape` and `ListedIffImage` state it |
| `LocationsDirectory.DirectoryFilter` | components/locations/LocationsDirectory.tsx:16-20 | the directory's `filtered` list; `DirectoryMembers`, `DirectoryKeepsOrder`, `DirectoryIgnoresCase` and `DirectoryIgnoresSurroundingSpace` state it |
| `LocationsDirectory.BlankQueryKeepsAll` | components/locations/LocationsDirectory.tsx:17-18 | a blank query returns the input unchanged |
| `LocationsDirectory.DirectoryMembers` | components/locations/LocationsDirectory.tsx:17-19 | an item is kept exactly when its lower-cased name contains the trimmed lower-cased query |
| `LocationsDirectory.DirectoryCounts` | components/locations/LocationsDirectory.tsx:17-19 | a matching item is kept as many times as the input holds it, any other never |
| `LocationsDirectory.DirectoryKeepsOrder` | components/locations/LocationsDirectory.tsx:19 | the result is an order-preserving sublist |
| `LocationsDirectory.DirectoryIgnoresCase` | components/locations/LocationsDirectory.tsx:17 | queries that differ only in case give the same list |
| `LocationsDirectory.DirectoryIgnoresSurroundingSpace` | components/locations/LocationsDirectory.tsx:17 | surrounding white space in the query does not change the list |
| `HomeServiceArea.ServiceAreaFilter` | components/home/HomeServiceArea.tsx:16-20 | the service area's `filtered` list; `AgreesWithDirectory`, `ServiceAreaMembers` and `ServiceAreaKeepsOrder` state it |
| `HomeServiceArea.BlankQueryKeepsAll` | components/home/HomeServiceArea.tsx:17 | a blank query returns the input unchanged |
| `HomeServiceArea.AgreesWithDirectory` | components/home/HomeServiceArea.tsx:16-20 | the service-area filter always equals the directory filter |
| `HomeServiceArea.ServiceAreaMembers` | components/home/HomeServiceArea.tsx:17-19 | an item is kept exactly when its lower-cased name contains the trimmed lower-cased query |
| `HomeServiceArea.ServiceAreaCounts` | components/home/HomeServiceArea.tsx:17-19 | a matching item is kept as many times as the input holds it, any other never |
| `HomeServiceArea.ServiceAreaKeepsOrder` | components/home/HomeServiceArea.tsx:19 | the result is an order-preserving sublist |
| `ContactFormModel.WithField` | app/contact/contact-form.tsx:137 | the changed field takes the value and no other field changes |
| `ContactFormModel.Validate` | app/contact/contact-form.tsx:140-150 | `validate()`, the seven field checks in order and then the captcha check; `ValidateFirstBlank`, `ValidateCaptchaLast`, `ValidateAcceptsIff` and `ValidateMessage` state it |
| `ContactFormModel.FirstBlankAt` | app/contact/contact-form.tsx:141-147 | the field table answers with the message of the first blank field |
| `ContactFormModel.FirstBlankNone` | app/contact/contact-form.tsx:141-147 | the field table answers null when no field is blank |
| `ContactFormModel.FirstBlankIsMessage` | app/contact/contact-form.tsx:141-147 | a table's answer is one of its messages |
| `ContactFormModel.ValidateFirstBlank` | app/contact/contact-form.tsx:141-147 | name, email, phone, property sold, closing date, city and message are checked in that order: a blank field is reported only when every earlier field is filled in, whatever the captcha token |
| `ContactFormModel.ValidateCaptchaLast` | app/contact/contact-form.tsx:148-149 | the captcha is checked last: with every field filled in, the form fails with the captcha message exactly when there is no token, and passes otherwise |
| `ContactFormModel.FirstBlankFindsBlank` | app/contact/contact-form.tsx:141-147 | a blank field anywhere in the table makes the table answer |
| `ContactFormModel.FirstBlankAgree` | app/contact/contact-form.tsx:141-147 | the table looks only at which fields are blank |
| `ContactFormModel.RequiredFieldsCoverForm` | app/contact/contact-form.tsx:141-147 | every form field is one of the required checks |
| `ContactFormModel.ValidateMessage` | app/contact/contact-form.tsx:140-149 | every validation error is a field message or the captcha message |
| `ContactFormModel.ValidateAcceptsIff` | app/contact/contact-form.tsx:140-150 | the form passes exactly when all seven fields are non-blank and a captcha token exists |
| `ContactFormModel.WhiteSpaceIsMissing` | app/contact/contact-form.tsx:141-147 | a field with only white space counts as missing |
| `ContactFormModel.EmailFormatUnchecked` | app/contact/contact-form.tsx:142 | the email is only checked for presence |
| `ContactFormModel.DefaultStateRejected` | app/contact/contact-form.tsx:141 | a reset form fails on the name check |
| `ContactFormModel.ContextualNote` | app/contact/contact-form.tsx:85 | the note from the query parameter wins when non-empty, else the prefill |
| `ContactFormModel.WithNote` | app/contact/contact-form.tsx:91-93 | the old message is kept as a prefix, followed by a blank line when it was not empty, and the labelled note ends the message |
| `ContactFormModel.WithNoteNotBlank` | app/contact/contact-form.tsx:88-95 | after the note the message check always passes |
| `ContactFormModel.SubmitDisabled` | app/contact/contact-form.tsx:290 | the button's `disabled` rule; `EnabledButtonHasToken` states it |
| `ContactFormModel.EnabledButtonHasToken` | app/contact/contact-form.tsx:290 | while the button is enabled the captcha check passes |
| `ContactFormModel.ContactForm.constructor` | app/contact/contact-form.tsx:74-103 | the form starts empty and idle with no errors and no token, ready if the script is loaded |
| `ContactFormModel.ContactForm.HandleChange` | app/contact/contact-form.tsx:135-138 | one field is updated and no other state changes |
| `ContactFormModel.ContactForm.ApplyContextualNote` | app/contact/contact-form.tsx:87-96 | a truthy note is added to the message and no other state changes |
| `ContactFormModel.ContactForm.ResetCaptcha` | app/contact/contact-form.tsx:128-133 | the token is cleared and no other state changes |
| `ContactFormModel.ContactForm.HandleSubmit` | app/contact/contact-form.tsx:152-164 | errors cleared; a failed check sets the error and leaves status and form alone; otherwise the status becomes submitting |
| `ContactFormModel.ContactForm.SubmitSettled` | app/contact/contact-form.tsx:165-174 | success resets the form; failure shows the send error; the token is cleared either way |
| `ContactFormModel.ContactForm.OnCaptchaSolved` | app/contact/contact-form.tsx:113-116 | the token is stored and the captcha error cleared |
| `ContactFormModel.ContactForm.OnCaptchaError` | app/contact/contact-form.tsx:117-119 | the captcha error message is shown |
| `ContactFormModel.ContactForm.OnCaptchaExpired` | app/contact/contact-form.tsx:120-122 | the token is cleared |
| `ContactFormModel.ContactForm.OnScriptLoaded` | app/contact/contact-form.tsx:185 | the captcha becomes ready |

## Left out

- The regular expressions of the name cascade are not modelled (lib/merge-batch-data.ts:158, 163, 193, 198). They use character classes and lazy bounded quantifiers; the two service patterns (:193, :198) also match case-insensitively, while the two location patterns (:158, :163) are case-sensitive. Each is a given function from the HTML to its capture, so only the order of attempts, the trimming, the article stripping and the fallback are modelled. `<p>([^<]+)<` is modelled exactly.
- Case mapping is ASCII only. JavaScript's `toLowerCase` and `toUpperCase` also map other letters, and a few of them change a string's length.
- String lengths are counted in characters. `NameExtraction.Shorten` therefore counts characters where JavaScript counts UTF-16 code units; text outside the Basic Multilingual Plane is cut at a different point.
- `ObjectSpread` keeps keys in insertion order. JavaScript lists integer-like keys (`"12"`) first in numeric order. Slugs are never integer-like.
- Prototype-chain lookups are not modelled. In JavaScript, `nameMap["constructor"]` finds an inherited, truthy function. The model's tables hold only their own entries.
- The batch modules, the site configuration and the inventory spotlight list are parameters. Fields of a batch record other than `mainDescription` are opaque.
- The captcha widget (script loading, `render`, `reset`, the widget id) is not modelled; its callbacks are methods. `ResetCaptcha` models only the cleared token.
- The 800 ms wait in the submit handler is not modelled. `SubmitSettled`'s `rejected` parameter chooses the branch after it. The catch branch is modelled, though the timer never rejects.
- React scheduling is not modelled. This covers when effects run, batched `setState` and the dependency lists. `ApplyContextualNote` is called by the caller when the note changes. The mount check for an already loaded script is the constructor's `scriptLoaded` parameter.
- `useSearchParams` and the form's props are parameters of `ApplyContextualNote`.
- `Intl.DateTimeFormat`, `console.error` and `preventDefault` have no effect on the modelled state.
- The other constants of lib/constants.ts are plain copies of configuration values and are not modelled.
