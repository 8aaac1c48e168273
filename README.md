# riftbounddecks card catalog, modelled in Dafny

This project models the deterministic core of the Riftbound card-catalog tooling.

- **The worker** (`worker/official.py`) reads the card gallery's page data and turns each raw variant record into a catalog entry. It builds and normalises the variant code, pulls the fields out defensively, and translates the `:rb_...:` description tokens. It publishes each variant's image to an object store or a static output directory, counting what it did in `ImageStats`. It then groups the variants into one card per name, ordered by a release/set/number sort key. Finally it compares the new catalog with the previous one.
- **The simplifier** (`scripts/cards.py`) is a second, independent one. It reads the card-search API's JSON-lines answer, finds the cards array in it, and simplifies each card:
  - sorts its variant codes;
  - picks the "normal" variant and moves it to the front;
  - applies the rune "b"-variant rule;
  - aligns the variant images.
- **The backend validators** (`backend/app/models/user.py`, `backend/app/core/security.py`) check usernames, password hashes and password strength, and guard the hash/verify wrappers.

The modules are split as follows:

- **Foundations.**
  - `Json` is raw JSON as a datatype: null, bool, int, string, array, and object as a list of members. It comes with Python's dictionary semantics (`get`, truthiness, `or`, `isinstance(int)` accepting booleans).
  - `Text` holds the string helpers: strip, split on first, lower/capitalize, and integer formatting.
  - `Sorting` is Python's stable `sorted` over lexicographic tuple keys, with its specification: sorted, a permutation, and elements with equal keys keeping their order.
  - `Lists` is "keep the first occurrence" deduplication.
  - `Patterns` holds the regular-expression shapes the validators use.
- **Worker modules:** `VariantCodes`, `Description`, `Extract`, `Locate`, `Grouping`, `Differ` and `Publisher`.
- **Simplifier modules:** `ScriptCodes`, `Simplify` and `CardsFeed`.
- **Backend modules:** `Users` and `Security`.

Python exceptions (an `AttributeError` from `.get` on a non-dictionary, a `ValueError` from a validator) are `Err` results carrying the error text.

The loops the source runs step by step are methods with loop invariants. Each is proved equal to a specification function, and the properties are proved about those functions. These loops are:

- the `seen`-set deduplications;
- the grouping `defaultdict`;
- the four lists and totals of `compare_cards`;
- the image-map and colour loops;
- the backward line scan.

The stateful pieces are classes:

- the object store of the uploader (`Publisher.Uploader`, a set of keys);
- the static output directory (`Publisher.StaticOutput`);
- the `ImageStats` counters, whose invariant is `new_images + missing_image_urls <= total_variants`.

## Model

| member | source | states |
|---|---|---|
| VariantCodes.KnownDatesAreTheTable | worker/official.py:19-24 | the release dates the set table assigns are exactly the two known dates |
| VariantCodes.NormalizeVariantNumber | worker/official.py:451-455 | only a trailing `*` is rewritten, to `s`: same length, same characters before the last, never ends in `*`, and the input is unchanged when it does not end in `*` |
| VariantCodes.NormalizeIdempotent | worker/official.py:451-455 | normalising twice equals normalising once |
| VariantCodes.SetIdOf | worker/official.py:468 | fails exactly when `set` or `set.value` is not a dictionary; otherwise the value at `set.value.id`, null when that is missing |
| VariantCodes.SlashCode | worker/official.py:463-464 | the public code is used exactly when it is a string containing `/`, and then it is that string |
| VariantCodes.CollectorOf | worker/official.py:466-469 | the collector number is the record's integer `collectorNumber`; a boolean reads as 0 or 1, as `isinstance(int)` allows; any other value gives none |
| VariantCodes.IdText | worker/official.py:472-476 | the record `id` as text: a string as it is, an integer in decimal; none exactly when `id` is missing or neither a string nor an integer (a boolean counts as an integer) |
| VariantCodes.BuildVariantNumber | worker/official.py:458-479 | the result is already normalised; a slash public code gives its normalised text before the first `/`; otherwise a string set id and an integer collector give `SET-NNN` normalised; otherwise a string or integer `id` normalised; otherwise `UNKNOWN`; it fails exactly when there is no slash code and the set lookup raises |
| VariantCodes.GetReleaseDateForCard | worker/official.py:584-589 | the date is the table's date for a string set id the table knows, and the far-future default for any other set id; it fails exactly when the set lookup raises |
| VariantCodes.ResolveSetFolder | worker/official.py:244-252 | the folder is never empty: the set id when given, else the code's non-empty text before `-`, else the code itself when `-` starts it or is missing, else `unknown` |
| VariantCodes.DigitsIn | worker/official.py:629 | the gathered characters are all digits and no more than the input |
| VariantCodes.DigitsInCounts | worker/official.py:629 | every digit of the text is kept as often as it occurs, and no other character |
| VariantCodes.DigitsInAppend | worker/official.py:629 | the digits of a concatenation are the digits of each part, in order |
| VariantCodes.DigitsInChar | worker/official.py:629 | one character gives itself when it is a digit and nothing otherwise |
| VariantCodes.DigitsInDigitsThenOther | worker/official.py:629-632 | digits followed by non-digits gather exactly the leading digits |
| VariantCodes.DigitsInNone | worker/official.py:629-635 | text without digits gathers nothing |
| VariantCodes.ParseWithoutDash | worker/official.py:625-626 | a code without `-` parses to number 0 and the lower-cased code |
| VariantCodes.ParseWellFormed | worker/official.py:628-637 | `SET-<digits><letters>` parses to the digits' value and the lower-cased letters |
| VariantCodes.ParseVariantComponents | worker/official.py:623-637 | gives the number and lower-cased suffix; its properties are the lemmas around it |
| VariantCodes.AfterFirstDash | worker/official.py:628 | splitting once on `-` gives the text before and after the first dash |
| VariantCodes.VariantSortKey | worker/official.py:640-645 | the key is the release date, the set id (or the code's text before `-` when the set id is empty), the parsed number, the parsed suffix and the code, in that order |
| VariantCodes.SmallerNumberFirst | worker/official.py:640-645 | with equal dates and the same set, a smaller number sorts first |
| VariantCodes.SuffixBreaksTies | worker/official.py:640-645 | with equal dates, set and number, the smaller suffix sorts first |
| VariantCodes.KnownBeforeUnknown | worker/official.py:640-645 | a variant of a known set sorts strictly before one with the far-future default date |
| VariantCodes.UnknownSetsSortLast | worker/official.py:655-656 | after sorting, every unknown-set variant comes after every known-set variant |
| VariantCodes.UnknownAfterKnown | worker/official.py:640-645 | in any list sorted by the variant key, every unknown-set variant comes after every known-set variant |
| Description.LeadingDigits | worker/official.py:419 | the longest all-digit prefix |
| Description.LeadingLetters | worker/official.py:430 | the longest alphabetic prefix |
| Description.EnergyPass | worker/official.py:418-422 | rewrites every `:rb_energy_N:` token; its properties are the lemmas below |
| Description.RuneReplacement | worker/official.py:424-428 | the replacement for one rune token: `[Name]` for a rune type, the token itself otherwise |
| Description.RunePass | worker/official.py:424-430 | rewrites every `:rb_rune_X:` token; its properties are the lemmas below |
| Description.TranslateDescriptionTokens | worker/official.py:407-435 | the energy pass, then the rune pass, then the table's literal replacements in table order; its properties are the lemmas below |
| Description.EnergyMatch | worker/official.py:418-422 | an energy token match consumes a non-empty run of digits |
| Description.RuneMatch | worker/official.py:430 | a rune token match consumes a non-empty name |
| Description.EnergyToken | worker/official.py:418-422 | `:rb_energy_N:` becomes `[int(N)]`, leading zeros dropped, and the rest is rewritten independently |
| Description.LeadingDigitsStop | worker/official.py:419 | the digit run stops at the first non-digit |
| Description.LeadingLettersStop | worker/official.py:430 | the letter run stops at the first non-letter |
| Description.RuneToken | worker/official.py:424-430 | `:rb_rune_X:` becomes `[Capitalised x]` exactly when lower(X) is a rune type, and is left untouched otherwise |
| Description.EnergyPassPlain | worker/official.py:418-422 | text without `:` passes the energy rewrite unchanged |
| Description.RunePassPlain | worker/official.py:430 | text without `:` passes the rune rewrite unchanged |
| Description.ReplacePlain | worker/official.py:432-433 | a literal replacement leaves a colon-free prefix alone |
| Description.NoColonTail | worker/official.py:413-435 | a colon-free text's tail is colon-free |
| Description.TranslatePlainPrefix | worker/official.py:413-435 | translation leaves a colon-free prefix unchanged and translates the rest |
| Description.PlainStep | worker/official.py:418-430 | a character other than `:` starts no energy or rune placeholder: both passes copy it and go on |
| Description.TranslatePlain | worker/official.py:413-435 | text without `:` translates to itself |
| Description.ColonPlain | worker/official.py:418-430 | a lone colon before colon-free text is left alone by the energy and rune rewrites |
| Description.ColonReplace | worker/official.py:432-433 | a token of the form `:...:` cannot match a lone colon before colon-free text |
| Description.ExhaustPasses | worker/official.py:407-435 | `:rb_exhaust:` survives the first two rewrites and becomes `[Exhaust]` |
| Description.MightPasses | worker/official.py:407-435 | `:rb_might:` survives the first two rewrites and becomes `[Might]` |
| Description.MightSkipsExhaust | worker/official.py:407-410 | the `:rb_exhaust:` replacement leaves `:rb_might:` and the plain text after it alone |
| Extract.GetStat | worker/official.py:438-448 | the stat is the integer at `key.value.id`, 0 when it is missing or not an integer |
| Extract.TagLabel | worker/official.py:507-524 | a tag is a plain string (in the `tags` list) or the string `label` of an entry |
| Extract.Labels | worker/official.py:507-524 | no more labels than entries |
| Extract.LabelsMembers | worker/official.py:507-524 | a string is a label exactly when some entry yields it |
| Extract.CollectLabels | worker/official.py:507-524 | the append loop equals the label specification |
| Extract.ExtractTags | worker/official.py:493-534 | the `seen`-set loop equals the tag specification |
| Extract.TagsProperties | worker/official.py:493-534 | tags are duplicate-free and come exactly from `tags.tags` or `values[*].label`; the `tags` entries come first, and all are in first-seen order |
| Extract.ExtractColors | worker/official.py:482-490 | fails exactly when `domain` is not a dictionary; otherwise the colours are the labels of `domain.values`, and a text is a colour exactly when some entry has it as its string `label` |
| Extract.ExtractType | worker/official.py:537-543 | fails exactly when `cardType` is not a dictionary or the first type entry is not one; otherwise the label of the first type entry, and `""` when there is none |
| Extract.PrimarySuper | worker/official.py:554-560 | a super type exists exactly when `superType` (or `superTypes`, when `superType` is falsy) is a non-empty list whose first entry has a label, and it is that entry's string `label` |
| Extract.FallbackSuper | worker/official.py:563-571 | none exactly when every listed block is passed over; fails exactly when a block whose `value` is not a dictionary comes after passed-over blocks only; otherwise the label of the first block that gives one |
| Extract.Blocks | worker/official.py:563-565 | the blocks are `card.get(key)` for the keys, in order |
| Extract.FirstLabel | worker/official.py:563-571 | over a list of blocks: none exactly when all are passed over, fails exactly when one raises after passed-over ones, otherwise a label given after passed-over ones |
| Extract.BlocksOfKeys | worker/official.py:563-571 | the clauses over the blocks carry over to the keys |
| Extract.SkippedShift | worker/official.py:563-571 | with a passed-over first block, all are passed over exactly when the rest are |
| Extract.RaisesShift | worker/official.py:563-571 | with a passed-over first block, a raising block is found exactly when one is found in the rest |
| Extract.TextShift | worker/official.py:563-571 | with a passed-over first block, a label found in the rest is found in the whole list |
| Extract.ExtractSuper | worker/official.py:546-571 | a non-dictionary `cardType` raises; a primary super type wins; otherwise the result is the fallback over `super` then `superType` |
| Extract.ExtractDescription | worker/official.py:574-579 | fails exactly when `text` or `text.richText` is not a dictionary; otherwise the token translation of the rendered body when the body is a non-empty string, and `""` otherwise |
| Extract.ImageUrl | worker/official.py:603 | fails exactly when `cardImage` is not a dictionary or a true `url` is not a string; otherwise the string at `cardImage.url`, none when that is missing or falsy |
| Extract.SetIdString | worker/official.py:599-601 | the set id is the string set id of the record, and `""` when there is none |
| Extract.EntryFields | worker/official.py:606-620 | fails exactly when the field readers fail; otherwise the entry carries the given code, image, date and set id, and the name, type, super type, description, colours, tags and stats the extractors give |
| Extract.MapCardVariant | worker/official.py:592-620 | succeeds exactly when the set lookup, the image lookup and every field reader succeed; the entry's code is the built code, its date the set's table date, its set id the record's string set id, its image what the handler returns for the record's URL, resolved folder and code, and its other fields those the extractors give |
| Extract.MapAll | worker/official.py:705-707 | non-dictionary items are skipped; it fails exactly when some dictionary item fails; otherwise the entries are the results for the dictionary items, in order |
| Extract.Dicts | worker/official.py:705-707 | the dictionary items, and only they |
| Extract.MapAllShift | worker/official.py:705-707 | every dictionary item maps exactly when the head does and every one of the tail does |
| Extract.MapAllCons | worker/official.py:705-707 | a dictionary at the head adds its own entry in front |
| Extract.MapItem | worker/official.py:705-707 | each dictionary item is mapped by `map_card_variant` |
| Locate.CardsItems | worker/official.py:376-378 | items exactly when the node is a dictionary whose `cards` is a dictionary holding an `items` list, and then that list |
| Locate.BladeItems | worker/official.py:365-368 | items exactly when the blade is a dictionary of type `riftboundCardGallery` whose `cards.items` is a list, and then that list |
| Locate.FirstBladeItems | worker/official.py:364-370 | the items of the first gallery blade that has them; none when no blade has them |
| Locate.GetCardsFromBlades | worker/official.py:349-370 | the items of the first gallery blade that has them in the list at `props.pageProps.page.blades`; none when that path is missing or no blade has them |
| Locate.Children | worker/official.py:380-389 | the children searched are smaller than the node |
| Locate.PreOrder | worker/official.py:373-391 | a node is the first in its own pre-order |
| Locate.FirstCardsItems | worker/official.py:373-391 | the first node in the list that has items, and none when no node does |
| Locate.FindCardsItems | worker/official.py:373-391 | the recursive search; its properties are the lemmas below |
| Locate.FirstCardsItemsAppend | worker/official.py:380-389 | searching a concatenation searches the first part, then the second |
| Locate.FindIsFirstInPreOrder | worker/official.py:373-391 | the recursive search returns the items of the first pre-order node that has them |
| Locate.FindFromIsFirst | worker/official.py:380-389 | the search over the remaining children is the first match in their pre-orders |
| Locate.FindSoundComplete | worker/official.py:373-391 | the search finds items exactly when some node of the tree has them, and what it finds belongs to such a node |
| Locate.LocateItems | worker/official.py:700-702 | non-empty blade items win; otherwise the recursive search's items; it fails exactly when both come up empty |
| Sorting.SortBy | worker/official.py:656 | Python's stable `sorted`: the output is sorted by the key, is a permutation of the input, and keeps the input order among equal keys |
| Sorting.SortHead | scripts/cards.py:133-134 | the first sorted element has the least key and is the earliest input element with that key |
| Sorting.StableHead | scripts/cards.py:133-134 | the head of any sorted arrangement that keeps the order among equal keys has the least key and is the earliest input element with that key |
| Sorting.InsertBy | worker/official.py:656 | inserting after the equal keys keeps a sorted list sorted and equal-key order stable |
| Lists.FirstIndex | worker/official.py:663-669 | the first position of an element |
| Lists.Dedup | worker/official.py:527-532 | keeping first occurrences never lengthens a list |
| Lists.DedupElements | worker/official.py:527-532 | the result has no duplicates and the same elements |
| Lists.DedupOrder | worker/official.py:527-532 | the result is in first-seen order |
| Lists.DedupPrefix | worker/official.py:527-532 | deduplicating an extension extends the deduplicated prefix |
| Lists.DedupNoDup | worker/official.py:527-532 | a duplicate-free list is left unchanged |
| Lists.DedupHead | worker/official.py:663-671 | the first element survives in front |
| Lists.DedupInOrder | worker/official.py:527-532 | the `seen`-set loop equals the first-occurrence specification |
| Grouping.GroupEntries | worker/official.py:650-652 | the `defaultdict` holds, for each name in first-seen order, the entries with that name in input order |
| Grouping.GroupMembers | worker/official.py:650-652 | a group holds exactly the entries with that name |
| Grouping.GroupNonEmpty | worker/official.py:650-652 | every name that occurs has a non-empty group |
| Grouping.GroupOfAbsent | worker/official.py:650-652 | a name that does not occur has an empty group |
| Grouping.CollectVariants | worker/official.py:663-669 | the `seen_variants` loop equals the code/image specification |
| Grouping.CodesAndImages | worker/official.py:663-669 | the code and image lists have the same length |
| Grouping.CodesDedup | worker/official.py:663-669 | the codes are the sorted codes with duplicates dropped, keeping first occurrences |
| Grouping.ImagesAligned | worker/official.py:663-669 | each image is the image of the first variant with the same code |
| Grouping.AssembleCardsByName | worker/official.py:648-689 | the loops equal the assembly specification |
| Grouping.CardOf | worker/official.py:656-686 | the card a non-empty sorted group specifies; its properties are the lemmas below |
| Grouping.Assemble | worker/official.py:648-689 | the assembly specification; its properties are the lemmas below |
| Grouping.BuildCard | worker/official.py:656-686 | one card from a non-empty group: the card that the group, sorted by the variant key, specifies |
| Grouping.BuildCards | worker/official.py:655-689 | the loop over the sorted names builds, in order, the card of each name from its group |
| Grouping.AssembleNames | worker/official.py:655-689 | one card per distinct name, in strictly ascending name order, covering every name |
| Grouping.AssembleCard | worker/official.py:655-689 | each card is built from its name's group sorted by the variant sort key |
| Grouping.CardCodes | worker/official.py:663-686 | a card's variants are duplicate-free and are exactly the codes of its group; the images have the same length and are index-aligned |
| Grouping.CardHead | worker/official.py:657-686 | name, `variantNumber` and `releaseDate` come from the first sorted variant, which has the earliest date; description, tags, type, super type, stats and colours come from the last |
| Grouping.EarlierDateSortsFirst | worker/official.py:640-645 | an earlier release date gives a smaller sort key |
| Grouping.SortedNamesStrict | worker/official.py:655 | the sorted names are strictly ascending |
| Grouping.SortedNamesNoDup | worker/official.py:655 | sorting distinct names keeps them distinct |
| Grouping.SortedNamesElements | worker/official.py:655 | the sorted names are exactly the names that occur |
| Grouping.SortedNames | worker/official.py:655 | `sorted(grouped)`: the distinct names in ascending order; its properties are the three lemmas above |
| Grouping.FetchCards | worker/official.py:694-708 | fails exactly when the location fails or a dictionary item fails to map; otherwise the catalog is the assembly of the mapped located items |
| Differ.CardNames | worker/official.py:793-794 | the names of the cards, in order |
| Differ.SameCard | worker/official.py:812-828 | the comparison of two cards; its properties are the lemmas below |
| Differ.Compare | worker/official.py:774-873 | the comparison specification; its properties are the lemmas below |
| Differ.ByName | worker/official.py:793-794 | the by-name index covers exactly the names present |
| Differ.IndexByName | worker/official.py:793-794 | the dictionary-building loop equals the index specification with the names in first-seen order |
| Differ.LastCardWins | worker/official.py:793-794 | duplicate names collapse, so the last record with a name is the one indexed |
| Differ.Classify | worker/official.py:802-831 | every new name lands in exactly one list |
| Differ.ClassifyMembers | worker/official.py:802-831 | added means absent before; updated means present and different; unchanged means present and the same |
| Differ.ClassifyNoDup | worker/official.py:802-831 | distinct names give duplicate-free lists |
| Differ.ClassifyNames | worker/official.py:802-831 | the appending loop equals the classification |
| Differ.Absent | worker/official.py:834-836 | no more removed names than old names |
| Differ.AbsentMembers | worker/official.py:834-836 | removed names are exactly the old names missing from the new snapshot |
| Differ.AbsentNoDup | worker/official.py:834-836 | distinct old names give a duplicate-free removed list |
| Differ.RemovedNames | worker/official.py:834-836 | the removal loop equals its specification |
| Differ.SumOf | worker/official.py:842-845 | the summing loop equals the variant total |
| Differ.Deltas | worker/official.py:847-855 | the updated-card loop equals the gained and lost totals |
| Differ.FirstRunReport | worker/official.py:776-790 | the first-run loop equals the first-run report |
| Differ.CompareCards | worker/official.py:774-873 | the whole comparison equals its specification |
| Differ.SnapshotReport | worker/official.py:792-873 | the comparison against a previous snapshot equals the snapshot report of the two catalogs indexed by name |
| Differ.TallyReport | worker/official.py:796-873 | classifying the new names, collecting the removed ones and summing the variants gives the snapshot report for the two indexes |
| Differ.VariantTotals | worker/official.py:838-860 | the three counting loops give the added and removed variant totals of the tally |
| Differ.TallyReady | worker/official.py:801-836 | added names are keys of the new index, updated names of both, removed names of the old one |
| Differ.FirstRun | worker/official.py:776-790 | with no previous snapshot every card is added, all variants count as added, and nothing is updated, removed or unchanged |
| Differ.OrderKeys | worker/official.py:802 | every name visited is a key of the index |
| Differ.ComparePartition | worker/official.py:793-873 | added, updated and unchanged partition the distinct new names; removed are exactly the old names that are gone; counts equal list lengths; lists are duplicate-free |
| Differ.SameCardIgnoresOrderAndImages | worker/official.py:812-828 | list fields are compared as sets and images are ignored |
| Differ.AsheAndBraum | worker/official.py:774-873 | a concrete comparison: one card updated with one more variant, one added |
| Differ.AsheAndBraumTally | worker/official.py:801-860 | on the two indexes of the example, Braum is added, Ashe updated, nothing removed or unchanged, and two variants are added |
| Differ.TwoCardsByName | worker/official.py:793-794 | two distinct names index both cards |
| Differ.AsheChanged | worker/official.py:812-828 | a card with a new variant differs |
| Differ.DedupTwo | worker/official.py:793-794 | distinct names keep their order |
| Publisher.NormalizePrefix | worker/official.py:169-170 | `""` exactly when the text stripped of whitespace and `/` is empty; otherwise that stripped text followed by one `/` |
| Publisher.PrefixedKey | worker/official.py:183-185 | the key is the prefix followed by the path without leading slashes |
| Publisher.PublicUrl | worker/official.py:187-189 | the URL starts with the base, one `/` and the prefix, and continues with the path stripped of leading slashes |
| Publisher.KeyIgnoresLeadingSlash | worker/official.py:183-185 | a leading slash of the path does not change the key |
| Publisher.PrefixJunction | worker/official.py:169-185 | prefix and path meet at exactly one slash |
| Publisher.ImagePath | worker/official.py:264-269 | the path is `img/<folder stripped of '/'>/<code>.png`, or `img/<code>.png` when the stripped folder is empty |
| Publisher.ImagePathForSet | worker/official.py:264-269 | a plain set id gives `img/<set>/<code>.png` |
| Publisher.UploadMissingUrl | worker/official.py:261-262 | a missing URL gives `("", False)` and leaves the store alone |
| Publisher.UploadSpec | worker/official.py:255-292 | the upload specification; its properties are the lemmas below |
| Publisher.UploadEffect | worker/official.py:255-292 | the store gains at most the image key; new exactly when the key was absent and is now stored; an existing or new object gives the public URL; a failed fetch or upload gives back the source URL and changes nothing |
| Publisher.UploadIdempotent | worker/official.py:271-272 | after a new upload, a repeat call reports not new and changes nothing |
| Publisher.Uploader.constructor | worker/official.py:169-170 | the uploader starts with the normalised prefix and the existing objects |
| Publisher.Uploader.UploadStream | worker/official.py:202-220 | the store gains the prefixed key and the public URL is returned |
| Publisher.UploadVariantImage | worker/official.py:255-292 | the URL, flag and new store are those of the upload specification |
| Publisher.ImageStats.constructor | worker/official.py:30-34 | all counters start at 0 |
| Publisher.ImageStats.Record | worker/official.py:722-733 | one more variant, one more missing URL exactly when missing, one more new image exactly when new; the counter invariant is kept |
| Publisher.SpacesHandler | worker/official.py:718-735 | the handler returns the upload's URL, updates the store as specified, counts once, and keeps `new_images + missing_image_urls <= total_variants` |
| Publisher.StaticRelativePath | worker/official.py:304-306 | the relative path is `<folder stripped of />/<code>.png`, or `<code>.png` when the stripped folder is empty |
| Publisher.StaticPathIsImagePath | worker/official.py:264-269 | the static relative path is the bucket image path without its leading `img/` |
| Publisher.StoreStatic | worker/official.py:295-324 | a missing URL gives `("", False)`; otherwise it agrees with the code as written |
| Publisher.StaticMissingUrlIsBare | worker/official.py:301-302 | as written, a missing URL returns a bare `""` rather than a pair |
| Publisher.StoreStaticAsWritten | worker/official.py:295-324 | the code as written, including the bare `""` on a missing URL |
| Publisher.StaticIdempotent | worker/official.py:304-324 | the directory gains at most the image file; new exactly when the file was absent; a repeat call after a new store reports not new |
| Publisher.StaticOutput.constructor | worker/official.py:738-739 | the output starts with the existing files |
| Publisher.StoreVariantImageStatic | worker/official.py:295-324 | the URL, flag and new files are those of the static specification |
| Publisher.StaticHandler | worker/official.py:738-755 | the handler checks the URL before storing, so it never meets the bare result; it counts once and keeps the counter invariant |
| ScriptCodes.LineTail | scripts/cards.py:31 | `.*` stops at a newline; a newline-free rest is taken whole |
| ScriptCodes.ParseVariantNumber | scripts/cards.py:50-61 | parses exactly when the code starts with three capitals, `-` and three digits; gives the capitals, the three-digit number and the rest of the line |
| ScriptCodes.ThreeDigits | scripts/cards.py:58 | three digits have a value below 1000 |
| ScriptCodes.ParseSingleLine | scripts/cards.py:50-61 | on one line, parsing succeeds exactly on the code shape and the suffix is the whole rest |
| ScriptCodes.SetCodeParses | scripts/cards.py:29-31 | a code matching the set-variant pattern parses with an empty suffix |
| ScriptCodes.IsSetCode | scripts/cards.py:29 | `^[A-Z]{3}-\d{3}$`: three capitals, `-`, three digits, and nothing after them but an optional final line feed |
| ScriptCodes.SetCodeIffEmptySuffix | scripts/cards.py:29-31 | a code matches the set-variant pattern exactly when it parses with an empty suffix |
| ScriptCodes.GetReleaseDate | scripts/cards.py:63-70 | fails exactly when a true `set` is not a dictionary or a true date is not a string; otherwise the string at `set.releaseDate`, and `""` when that is missing or falsy |
| ScriptCodes.ReadVariants | scripts/cards.py:245 | `card.get("cardVariants", []) or []`: a falsy value reads as no variants, a true non-list raises, a list is read record by record |
| ScriptCodes.ReadVariant | scripts/cards.py:249-254 | succeeds exactly when the record is a dictionary, its `variantNumber` (when present) is a string and its release date reads; the read variant carries that code (or `""`), that date and the `imageUrl` value (or `""`) |
| ScriptCodes.ReadAll | scripts/cards.py:245-257 | succeeds exactly when every record reads; then every record is read, in order |
| ScriptCodes.ReadableShift | scripts/cards.py:245-257 | every record reads exactly when the first does and every one of the rest does |
| ScriptCodes.ReadAllCons | scripts/cards.py:245-257 | the first record's result goes in front of the rest's |
| ScriptCodes.SortKey | scripts/cards.py:82-95 | the `sort_key` of `sort_variants`; its parts are stated by the lemmas below |
| ScriptCodes.SortKeyParts | scripts/cards.py:82-95 | the key is the release date, the parsed number (999999 when the code does not parse), the parsed suffix (the code itself when it does not parse) and the code |
| ScriptCodes.ParsedBeforeUnparsed | scripts/cards.py:82-95 | on one release date, a code that parses sorts before one that does not |
| ScriptCodes.SmallerParsedNumberFirst | scripts/cards.py:82-95 | on one release date, a smaller parsed number sorts first |
| ScriptCodes.Present | scripts/cards.py:98 | only variants with a non-empty code are kept |
| ScriptCodes.NormCodes | scripts/cards.py:98 | each output code is the normalised code of its variant |
| ScriptCodes.PresentSorted | scripts/cards.py:97-98 | filtering keeps a sorted list sorted |
| ScriptCodes.PresentCount | scripts/cards.py:98 | filtering keeps every present variant as often as it occurs |
| ScriptCodes.PresentPermutation | scripts/cards.py:97-98 | filtering a permutation gives a permutation |
| ScriptCodes.SortVariantsSpec | scripts/cards.py:72-98 | the output is the normalised codes of a sorted permutation of the present variants, no longer than the input, with no empty code |
| ScriptCodes.SortVariantsHas | scripts/cards.py:72-98 | every present variant's normalised code is in the output |
| ScriptCodes.PresentHas | scripts/cards.py:97-98 | in any arrangement of the variants, a variant with a code contributes its normalised code |
| ScriptCodes.SortVariants | scripts/cards.py:72-98 | the sorted-codes specification; its properties are the lemmas around it |
| ScriptCodes.Matching | scripts/cards.py:113-116 | the matching variants are exactly those whose code matches the set-variant pattern |
| ScriptCodes.MatchingSnoc | scripts/cards.py:113-116 | one more variant at the end is added exactly when its code matches the pattern |
| ScriptCodes.NormalVariant | scripts/cards.py:100-134 | the normal-variant specification; its properties are the lemmas below |
| ScriptCodes.NormalKey | scripts/cards.py:123-132 | the `sort_key` of `get_normal_variant_number`: date, then the parsed number or 999999 |
| ScriptCodes.NormalKeyIsSortKeyPrefix | scripts/cards.py:82-132 | the normal-variant key is the first two parts of the `sort_variants` key |
| ScriptCodes.GetNormalVariantNumber | scripts/cards.py:100-134 | the loop and sort equal the normal-variant specification |
| ScriptCodes.NormalVariantNone | scripts/cards.py:118-119 | there is no normal variant exactly when no code matches the pattern |
| ScriptCodes.NormalVariantLeast | scripts/cards.py:121-134 | the normal code matches and has the least (date, number) key; ties go to the earliest matching variant |
| ScriptCodes.FilterHead | scripts/cards.py:112-134 | the head of the sorted filtered list has the least key among kept elements and is the earliest with it |
| ScriptCodes.StableHead | scripts/cards.py:133-134 | the head of a stable sort is the earliest element with the least key |
| ScriptCodes.NormalListed | scripts/cards.py:257-262 | the normal code is non-empty and its normalised form is among the sorted codes |
| Simplify.ImageMapDomain | scripts/cards.py:247-254 | a code has an image entry exactly when some variant has that normalised non-empty code |
| Simplify.ImageMapLastWins | scripts/cards.py:247-254 | duplicate normalised codes take the image of the last variant |
| Simplify.BuildImageMap | scripts/cards.py:247-254 | the dictionary loop equals the image-map specification |
| Simplify.MoveToFront | scripts/cards.py:273-278 | the normal code moves to index 0, its first occurrence is removed, and the rest keep their order |
| Simplify.AddRuneVariant | scripts/cards.py:287-297 | `<id>b` ends up present; an absent one is inserted right after the first `<id>a`, or appended when there is none, and nothing else changes |
| Simplify.FirstWith | scripts/cards.py:309-317 | the first variant with the code, none exactly when there is none |
| Simplify.ImagesFor | scripts/cards.py:303-307 | the images have the variants' length and each is its code's image or `""` |
| Simplify.NormalizeList | scripts/cards.py:145-148 | a list maps to itself, null to `[]`, and any other value to a one-element list |
| Simplify.NormalizeListIdempotent | scripts/cards.py:145-148 | normalising a normalised list changes nothing |
| Simplify.ColorsOf | scripts/cards.py:136-143 | succeeds exactly when `cardColors` is falsy or a list whose every entry reads |
| Simplify.Collect | scripts/cards.py:139-143 | succeeds exactly when every entry yields a result |
| Simplify.ColorName | scripts/cards.py:139-142 | one colour entry: fails exactly when the entry is not a dictionary or a true `color` is not one; otherwise the string at `color.name`, none when that is missing or not a string |
| Simplify.CollectCover | scripts/cards.py:136-143 | a successful colour scan read every entry and kept every name it found |
| Simplify.CollectSource | scripts/cards.py:136-143 | every colour comes from some entry |
| Simplify.CollectFails | scripts/cards.py:136-143 | the first entry that raises decides the error |
| Simplify.ColorsMembers | scripts/cards.py:138-142 | every colour is the name of an entry of `cardColors` |
| Simplify.ExtractColors | scripts/cards.py:136-143 | the loop equals the colour specification |
| Simplify.CollectNames | scripts/cards.py:139-143 | the names in entry order, and the error of the first entry that raises |
| Simplify.ArrangeVariants | scripts/cards.py:257-278 | the normal code and arranged list are those of the specification |
| Simplify.ChooseNormal | scripts/cards.py:261-271 | the normalised code as found, replaced by the first sorted set code when it is missing from the sorted codes |
| Simplify.PutNormalFirst | scripts/cards.py:274-278 | the sorted codes with the first occurrence of a non-empty normal code moved to the front |
| Simplify.CollectImages | scripts/cards.py:303-307 | the image loop equals its specification |
| Simplify.FindReleaseDate | scripts/cards.py:309-317 | the release-date loop equals its specification |
| Simplify.ApplyRuneRule | scripts/cards.py:280-301 | the rune step equals its specification on variants and images |
| Simplify.SimplifyCard | scripts/cards.py:239-333 | the whole simplification equals its specification |
| Simplify.Simplify | scripts/cards.py:239-333 | succeeds exactly when the card is a dictionary whose variants and colours read |
| Simplify.ArrangedSpec | scripts/cards.py:257-278 | without a normal variant the list is the sorted codes; with one, the list is a permutation of the sorted codes with the normal code moved to the front |
| Simplify.ImagesAligned | scripts/cards.py:303-307 | `variantImages` has the length of `variants` and is index-aligned, with `""` for unknown codes |
| Simplify.RuneRule | scripts/cards.py:283-301 | for a rune card whose normal code is a listed rune id, `<id>b` is added by the insertion rule and an added one gets the CDN image |
| Simplify.NotRune | scripts/cards.py:284-285 | otherwise variants and images are untouched |
| Simplify.SimplifiedParts | scripts/cards.py:319-333 | the simplified card's fields are the normal code, the arranged and rune-completed variants, the aligned images, the release date and the colours |
| Simplify.ReleaseDateSpec | scripts/cards.py:309-317 | no normal code gives no date; otherwise the date of the first raw variant whose code equals the normal code |
| CardsFeed.SplitOn | scripts/cards.py:158 | splitting gives at least one piece and no piece holds the separator |
| CardsFeed.SplitJoin | scripts/cards.py:158 | joining the pieces gives the text back |
| CardsFeed.SplitCons | scripts/cards.py:158 | a separator-free first piece splits off whole |
| CardsFeed.JoinSplit | scripts/cards.py:158 | separator-free pieces are recovered by splitting their join |
| CardsFeed.CardsArrayOf | scripts/cards.py:169-204 | none when there is no `json[2][0]` list under version 3; a list of dictionaries as first element is the result; a dictionary first element gives the whole list exactly when it looks like a card; any other first element gives none |
| CardsFeed.CardsList | scripts/cards.py:169-191 | the list at `json[2][0]` exists exactly when `json` is a list of at least three entries headed by 3 whose third entry and its head are non-empty lists |
| CardsFeed.DocumentedShape | scripts/cards.py:176-191 | the documented shape yields the innermost card list |
| CardsFeed.OtherVersion | scripts/cards.py:172-174 | a version other than 3 is never accepted |
| CardsFeed.ScanFindsLast | scripts/cards.py:162-208 | the scan fails exactly when no line holds a cards array, and otherwise returns the array of the last line holding one |
| CardsFeed.ScanBackward | scripts/cards.py:162-208 | the backward loop equals the scan specification |
| CardsFeed.LineCards | scripts/cards.py:165-204 | one line gives cards exactly when its stripped text is non-empty, decodes, and holds a cards array; that array is the result |
| CardsFeed.ExtractCardsArray | scripts/cards.py:150-208 | the extraction specification; its properties are the lemmas around it |
| CardsFeed.ExtractCards | scripts/cards.py:150-208 | the whole extraction equals its specification |
| Patterns.FullMatchPlusAll | backend/app/models/user.py:29 | a `^[cls]+$` match holds exactly for a non-empty text of class characters |
| Patterns.Search | backend/app/core/security.py:27-34 | a search finds the leftmost class character, and none exactly when there is none |
| Users.ValidateUsername | backend/app/models/user.py:23-32 | success returns the input; a bad length gives the length error |
| Users.UsernameAccepted | backend/app/models/user.py:26-30 | accepted exactly for 3 to 50 characters from `[A-Za-z0-9_]`; the length check comes before the character check |
| Users.ShortUsernameExample | backend/tests/models/test_user.py:45 | `ab` is refused for its length |
| Users.CharsetUsernameExample | backend/tests/models/test_user.py:46 | `user@name` is refused for its characters |
| Users.LongUsernameExample | backend/tests/models/test_user.py:47 | 51 `a`s are refused for their length |
| Users.GoodUsernameExample | backend/tests/models/test_user.py:19 | `test_user` is accepted as it is |
| Users.ValidatePasswordHash | backend/app/models/user.py:35-41 | rejects exactly the empty hash, otherwise returns it |
| Security.ValidatePasswordStrength | backend/app/core/security.py:21-36 | success returns the password; fewer than 8 characters gives the length error |
| Security.PasswordAccepted | backend/app/core/security.py:24-34 | accepted exactly with at least 8 characters and a lowercase letter, an uppercase letter and a digit; the first failing check in that order decides the error |
| Security.StrongPasswordExample | backend/tests/core/test_security.py:21-26 | `StrongPass1` is accepted and returned as it is |
| Security.ShortPasswordExample | backend/tests/core/test_security.py:12 | `short` is refused as too short |
| Security.NoUppercaseExample | backend/tests/core/test_security.py:12 | `alllowercase1` is refused for its missing uppercase letter |
| Security.NoLowercaseExample | backend/tests/core/test_security.py:12 | `NOLOWERCASE1` is refused for its missing lowercase letter |
| Security.NoDigitExample | backend/tests/core/test_security.py:12 | `NoDigits` is refused for its missing digit |
| Security.HashPassword | backend/app/core/security.py:39-43 | fails exactly when validation fails, with its error; otherwise the hasher's result |
| Security.WeakPasswordNeverHashed | backend/app/core/security.py:42 | a rejected password never reaches the hasher |
| Security.VerifyPassword | backend/app/core/security.py:46-56 | true exactly when the hash is non-empty and the checker confirms it; an empty hash is false |
| Security.EmptyHashIgnoresChecker | backend/app/core/security.py:49-50 | an empty hash is refused whatever the checker would say |

## Left out

- The network and HTML are outside the model:
  - fetching the gallery page, `fetch_cards_from_api` and the image downloads are not modelled;
  - the image fetch outcome is a parameter (`Publisher.Fetch`);
  - BeautifulSoup's `html_to_text` is the `htmlText` parameter of `Extract.ExtractDescription`;
  - `extract_next_data` is not modelled, so the worker model starts from the parsed page data.
- `json.loads` is the `decode` parameter of `CardsFeed.ExtractCards`; `json.dumps`, `load_json`, `dump_json`, `write_cards_json_static` and `load_existing_cards` are file I/O and are not modelled.
- boto3 and environment parsing are replaced by a set of stored keys:
  - `SpacesUploader.__init__`'s environment and URL parsing is not modelled (only the prefix normalisation is kept);
  - `object_exists` errors other than a missing object are not modelled;
  - `upload_json` and `download_json` are not modelled.
- In static mode, `mkdir` and the partially written file left by a failed download are not modelled. A failed download leaves the set of files unchanged.
- Logging, `format_change_summary`, `log_card_changes`, `log_summary`, `parse_args` and both `main` functions are output and command-line plumbing.
- The FastAPI app, the Motor client, the settings loader and the pydantic schemas are not modelled:
  - pydantic's whitespace stripping before the validators run is not modelled;
  - the `EmailStr` and `ObjectId` checks are not modelled;
  - the bcrypt call is the `hasher`/`checker` parameter.
- Python's `\d`, `str.isdigit()` and `str.isalpha()` accept Unicode digits and letters. The model uses ASCII classes. `str.lower()` and `str.capitalize()` (`Text.Lower`, `Text.Capitalize`, used for the suffix of `VariantCodes.ParseVariantComponents` and for the rune names) map ASCII letters only. The whitespace set of `str.strip()` (`Text.IsSpace`, used by `Publisher.NormalizePrefix` and the line strip of `CardsFeed`) is the ASCII whitespace characters, not Unicode's.
  - Security.ValidatePasswordStrength: uses ASCII classes for the lowercase, uppercase and digit checks.
- JSON floats are not in the `Json` datatype, so a version field written `3.0` (equal to 3 in Python) is not modelled. Duplicate keys in one JSON object are not modelled either: objects are taken as decoded, one value per key.
- The previous snapshot of `compare_cards` is taken as typed cards (name, variants, images, colours, tags and the other compared fields). Its raw-dictionary defaults for missing fields are not modelled.
- Records whose `name` is not a string, or whose image URL is not a string, are rejected (`Err`). Python would group or pass them on.
- ScriptCodes.GetReleaseDate: a true set `releaseDate` that is not a string is an error here, while Python's `get_release_date` returns it unchanged (scripts/cards.py:69-70). The model rejects those inputs.
- ScriptCodes.ReadVariant: inherits that narrowing. Python's `sort_variants` accepts such a date whenever `sorted` never compares it with a string (one variant, ties decided earlier, or dates of one comparable type). A `variantNumber` that is not a string is an error in both, because `sort_variants` applies its key to every variant and the regular expression raises.
- Extract.MapCardVariant: the image handler is a pure function parameter. Its effects on the store and the counters are modelled separately by `Publisher.SpacesHandler` and `Publisher.StaticHandler`.
- Simplify.MoveToFront and Simplify.AddRuneVariant: these model the in-place `remove`/`insert`/`append` of `simplify_card` on values.

## Findings

| source | as written | input that shows it | evidently intended | confidence | as-written member | corrected member |
|---|---|---|---|---|---|---|
| worker/official.py:301-302 | `store_variant_image_static` returns a bare `""` for a missing URL, where every other path returns a `(url, is_new)` pair | url `None` or `""`; unreachable from the static handler, which checks the URL first (worker/official.py:744-746) | return `("", False)` like `upload_variant_image` | not executed | Publisher.StaticMissingUrlIsBare (about Publisher.StoreStaticAsWritten) | Publisher.StoreStatic |
