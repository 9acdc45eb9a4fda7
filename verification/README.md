# jcad catalog and association engine, in Dafny

jcad prepares a KiCad board for JLCPCB's assembly service. It keeps a local
catalog of JLCPCB parts in a key/value store. It remembers which catalog part
each kind of board component was associated with. Its `generate` command turns
the board's position file into the two files the assembler wants: a bill of
materials (BOM) and a component placement list (CPL).

This project models that engine and proves properties of the model:

- `wrappers.dfy`, `text.dfy`, `numbers.dfy`: `Option`, and the pieces of Go's
  `strings` and `strconv` packages the engine relies on (split, join, trim,
  letters-only, ASCII lower-case, `Atoi`, `ParseInt`, decimal formatting).
- `util.dfy`: `NormalizeValue` and `FromCID` (lib/util.go).
- `value_scan.dfy`: the three value regular expressions of lib/library.go, as
  a scanner proved to return the leftmost match.
- `parts.dfy`: the catalog part (`LibraryComponent`) and the board component
  (`BoardComponent`), with catalog ids, class prefixes, values and
  association keys.
- `catalog.dfy`: the store (`Library`) as a class whose buckets are maps.
  `Import`, `SetRotation`, `FindMatching`, `Exact`, `FindAssociated`,
  `FindInCategory` and `Associate` are specified by functions over the bucket
  maps, and the methods are proved against them.
- `placement.dfy`: `Rotate`, the per-run association cache (`AssociationMap`),
  the BOM (`Bom.AddComponent`), and the rows `ReadPOS` reads and
  `WriteCPL`/`WriteBOM` write.
- `generate.dfy`: the body of the `generate` command.
  - The `--redesignate` and `--rotate` flags are parsed.
  - The first pass forgets the associations of redesignated components and
    applies rotation overrides.
  - The second pass asks the user for every component without an association.
  - The kept components are written to the BOM and, rotated, to the CPL.

The two passes are specified by functions over a `Session`: the cache plus
the store's part, association and package-association buckets. The methods
over the live `AssociationMap` and `Library` are proved equal to those
functions. The properties are proved about the functions: the store invariant
(`Sound`) is kept, each key is asked about at most once, redesignated
components are asked about again, a rotation override reaches the part, and
non-assemblable components never reach the output.

`NormalizeValue`'s doc comment (lib/util.go:54-64) lists normalisations such as
1200 -> 1.2k that the code leaves as a to-do. The model follows the code:
`Util.NormalizeValueKeepsMagnitude` proves "1200" is returned unchanged.

## Model

| member | source | states |
|---|---|---|
| Util.NormalizeValue | lib/util.go:65-75 | the result is a prefix of the value; at most the unit suffixes are trimmed |
| Util.NormalizeValueUnchanged | lib/util.go:65-75 | a value ending in none of Ω, Ohms, Ohm, F, H, f, h is returned unchanged |
| Util.NormalizeValueStripsUnit | lib/util.go:66-70 | a value ending in a unit suffix loses exactly that suffix, when the first suffix that matches, in list order, leaves nothing a later one trims |
| Util.TrimEachStripsAt | lib/util.go:66-70 | the chain of suffix trims over any list removes exactly the first matching suffix when no later one matches what it leaves |
| Util.NormalizeValueExampleKilo | lib/util.go:57 | "10k" stays "10k" |
| Util.NormalizeValueExampleOhms | lib/util.go:58 | "10kOhms" becomes "10k" |
| Util.NormalizeValueExampleFarad | lib/util.go:59 | "10uF" becomes "10u" |
| Util.NormalizeValueExampleHenry | lib/util.go:60 | "10uH" becomes "10u" |
| Util.NormalizeValueKeepsMagnitude | lib/util.go:72 | "1200" is not rescaled: the normalisation of magnitudes is not implemented |
| Util.FromCID | lib/util.go:27-31 | after one leading "C" is dropped: text that is not a decimal gives 0, a decimal within 64 bits gives its value, and the result is always a 64-bit integer |
| Util.FromCidExamples | lib/util.go:27-31 | "C12" and "12" give 12; "", "C" and "CC5" give 0 |
| Parts.FromCidOfCid | lib/util.go:27-31 | `FromCID` reads back every 64-bit id that `CID` wrote |
| Parts.CidInjective | lib/library.go:299-301 | two ids have the same catalog id exactly when they are equal |
| Parts.CidZero | lib/library.go:299-301 | "C0" is the catalog id of id 0 and of no other id |
| Parts.CategoryPrefix | lib/library.go:303-314 | the class is C, R or L exactly for the three category names, and "" otherwise |
| ValueScan.FindStringLeftmost | lib/library.go:21-23 | the scan returns "" exactly when no digit-or-dot run followed by a unit occurs; otherwise it returns the leftmost such match |
| Parts.ValueFromDescription | lib/library.go:319-330 | a part's value is "" without a class or a match; otherwise it is the leftmost match of its class's pattern, keeping all its digits and losing at most its unit |
| Text.LettersOnly | lib/cpl.go:28-30 | the designator prefix holds only ASCII letters, and is the whole designator when that is all letters |
| Text.LettersOnlyAppend | lib/cpl.go:28-30 | the prefix of a concatenation is the prefixes of its parts, concatenated: every letter is kept, in order |
| Text.LettersOnlyExample | lib/cpl.go:28-30 | letters after a digit are kept: "R1A" gives "RA" |
| Parts.Sanitize | lib/cpl.go:39-40 | replacing ':' with '_' keeps the length and leaves no ':' |
| Parts.KeyFields | lib/cpl.go:36-42 | the key splits on ':' into exactly prefix, sanitised comment and sanitised package |
| Parts.KeyHasTwoColons | lib/cpl.go:36-42 | every key holds exactly two ':' separators |
| Parts.KeyInjective | lib/cpl.go:36-42 | two components share a key exactly when their prefixes, sanitised comments and sanitised packages agree |
| Parts.SameKeySamePrefix | lib/cpl.go:36-42 | components with the same key have the same designator prefix |
| Parts.KeyUsesRawComment | lib/cpl.go:39 | the key uses the raw comment: "10k" and "10kOhms" share a value but not a key |
| Parts.KeyConflatesColon | lib/cpl.go:39 | comments "a:b" and "a_b" share a key |
| Catalog.IndexBucket | lib/library.go:25-29 | only the classes R, C and L have a value-index bucket |
| Catalog.ImportedLookup | lib/library.go:214-227 | looking a value up in the bucket an import wrote for R, C or L gives the ids of the Basic parts of that class with that value, in row order |
| Catalog.MatchAfterImport | lib/library.go:408-422 | after an import, the ids a board component is matched against are those of the imported Basic parts with its class and value; a class other than R, C and L matches nothing |
| Catalog.FromId | lib/library.go:42-49 | after one leading "C" is dropped: text `Atoi` rejects gives 0, otherwise its value, always a 64-bit integer |
| Catalog.FromIdExamples | lib/library.go:42-49 | "C12" and "12" give 12; "", "C", "CC5" and "C-" give 0 |
| Catalog.FromIdOfCid | lib/library.go:42-49 | `fromID` reads back every 64-bit id that `CID` wrote |
| Catalog.ComponentOfRow | lib/library.go:145-155 | a row's part takes its id from column 0, its categories from columns 1 and 2, part, package, solder joint and manufacturer from columns 3-6, library type and description from columns 7 and 8, with rotation 0 |
| Catalog.Appended | lib/library.go:157-172 | appending an id to a list creates the list when it is missing and changes no other list |
| Catalog.ImportedCatalogRows | lib/library.go:140-192 | a catalog id is stored exactly when some accepted row has it, and it holds the part of the last such row |
| Catalog.RowStored | lib/library.go:186 | every accepted row's catalog id is stored |
| Catalog.ImportedUnderOwnCid | lib/library.go:186 | every stored part is stored under its own catalog id |
| Catalog.ImportedCategoriesLists | lib/library.go:157-162 | a category's list holds, in row order, the id of every accepted row naming it as first or second category |
| Catalog.ImportedIndexLists | lib/library.go:164-172 | a class's value list holds, in row order, the ids of the Basic parts of that class with that value |
| Catalog.ImportedIndexStep | lib/library.go:164-172 | one more row appends its id to one value list of its own class at most |
| Catalog.IndexRowOf | lib/library.go:164-172 | every id in a value list comes from an indexed row with that class and value |
| Catalog.CategoryRowOf | lib/library.go:157-162 | every id in a category list comes from an accepted row naming that category |
| Catalog.CategoryIdsNonEmpty | lib/library.go:157-162 | a category has a non-empty list exactly when some accepted row names it |
| Catalog.EmptyCategoryName | lib/library.go:157-162 | the lists hold the empty category name exactly when some accepted row has an empty first or second category |
| Catalog.ByClassNoEmptyValue | lib/library.go:164-172 | no class index has a list under the empty value |
| Catalog.ImportedStoreValid | lib/library.go:41-232 | after an import every id in a category or value list has a stored part |
| Catalog.ListedIdsResolve | lib/library.go:504-508 | in a valid store, every listed id resolves to a stored part with that id |
| Catalog.Library.constructor | lib/library.go:250-263 | a store on a fresh database file has every bucket, each of them empty |
| Catalog.Library.PutAll | lib/library.go:202-214 | putting every collected list into a bucket fails exactly when one is under the empty key; otherwise it yields the bucket overridden by the lists |
| Catalog.Library.Commit | lib/library.go:200-231 | the final transaction fails with "key required", leaving the buckets empty, exactly when a list is under the empty key; otherwise it writes the category lists and the three class indexes under their bucket names |
| Catalog.Library.ReadRows | lib/library.go:133-198 | the batched transactions store each accepted row's part and collect the category and index lists |
| Catalog.Library.Import | lib/library.go:41-232 | the parts, category and index buckets are emptied; an unknown file type is an error; an empty category name is the "key required" error, with the parts stored and the lists empty; otherwise they hold the imported parts and lists; the store stays valid in every case |
| Catalog.CanAssemble | lib/library.go:335-354 | a component cannot be assembled exactly when its prefix is J, H, G, JP, DRA, DS or SW |
| Catalog.CanAssembleExamples | lib/library.go:335-354 | J1 and SW12 are not assembled; U3 and JPX1 are |
| Catalog.SameKeySameAssembly | lib/library.go:335-354 | components with the same key are assembled alike |
| Catalog.RotationKeepsStoreValid | lib/library.go:356-377 | storing a part with a new rotation keeps the store valid |
| Catalog.Library.SetRotation | lib/library.go:356-377 | the part, with its rotation replaced, is stored under its catalog id; nothing else changes |
| Catalog.CandidatesIn | lib/library.go:387-437 | no candidates for a class without an index; otherwise one slot per listed id, holding the stored part or nothing |
| Catalog.CandidatesResolve | lib/library.go:424-431 | in a valid store every candidate slot holds a part with the listed id |
| Catalog.CandidatesByValue | lib/library.go:408-422 | components with the same prefix and value get the same candidates |
| Catalog.Library.FindMatching | lib/library.go:387-437 | the candidates are the slots of the ids listed under the component's class and value |
| Catalog.ExactIn | lib/library.go:439-456 | "C0" and unknown ids give the empty part; a stored id gives its part |
| Catalog.ExactRoundTrip | lib/library.go:439-456 | a found part is stored under the id asked for, and a stored part is found by its own catalog id |
| Catalog.Library.Exact | lib/library.go:439-456 | a part with a non-zero id is the part stored under the id asked for |
| Catalog.AssociatedIn | lib/library.go:458-490 | a non-assemblable component gets the empty part; an assemblable one with no association gets nothing; the "C0" association gets the part stored under "C0" if there is one, and the empty part otherwise |
| Catalog.AssociatedTriState | lib/library.go:458-490 | in a valid store: no association gives nothing, "C0" gives the skip part, any other association gives its stored part or nothing |
| Catalog.AssociatedNamesPart | lib/library.go:458-490 | a part found for an assemblable component is the one its key is associated with |
| Catalog.Library.FindAssociated | lib/library.go:458-490 | nothing is found only for an assemblable component; a non-zero part is stored; the skip part means the key is associated with "C0" |
| Catalog.CategoryPartsIn | lib/library.go:492-517 | one part per listed id of the category, in list order, the empty part for an unstored id |
| Catalog.CategoryPartsResolve | lib/library.go:504-508 | in a valid store every part found in a category has the listed id |
| Catalog.Library.FindInCategory | lib/library.go:492-517 | the parts are those listed under the category, in order |
| Catalog.AssociateThenFind | lib/library.go:519-537 | after associating a part, the lookup finds that part, or the skip part for id 0 |
| Catalog.DissociateThenFind | lib/library.go:525-527 | after removing an association, the lookup finds nothing |
| Catalog.Library.Associate | lib/library.go:519-537 | no part removes the key's association; a part associates the key with its catalog id and the package with the part's package |
| Placement.NormalizeAngle | lib/cpl.go:48-58 | a normalised angle lies in [0, 360] |
| Placement.NormalizeAngleTurns | lib/cpl.go:48-58 | the normalised angle differs from the input by whole turns, and is where both loops stop |
| Placement.LoopExitUnique | lib/cpl.go:50-55 | the loops stop at exactly one angle among the inputs' whole-turn shifts |
| Placement.Rotate | lib/cpl.go:48-58 | only the rotation changes: the old rotation plus the delta, normalised |
| Placement.RotateBoundaries | lib/cpl.go:50-55 | 360 and 720 give 360; -360 gives 0; -30 gives 330; 450 gives 90 |
| Placement.RotateThereAndBack | lib/cpl.go:48-58 | an angle strictly between 0 and 360, turned by 400 and then by -400, comes back unchanged |
| Placement.RotateZeroComesBackAs360 | lib/cpl.go:48-58 | 0 rotated by -30 and then by 30 comes back as 360 |
| Placement.AssociationMap.constructor | lib/cpl.go:65-67 | a new map has an empty cache over the given store |
| Placement.AssociationMap.FindAssociated | lib/cpl.go:69-79 | a cached key gives its cached answer; otherwise the store's answer is given and cached |
| Placement.AssociationMap.Associate | lib/cpl.go:81-91 | the association is recorded, or forgotten, in both the cache and the store |
| Placement.AddEntry | lib/cpl.go:102-114 | a new part id gets a line with the component's comment, package and designator; a known id gets the designator appended |
| Placement.Bom.constructor | lib/cpl.go:100 | a new BOM is empty |
| Placement.Bom.AddComponent | lib/cpl.go:102-114 | the BOM grows by one designator under the part's id |
| Placement.BomOfKeys | lib/cpl.go:102-114 | the BOM has a line for a part id exactly when some placed component has that part |
| Placement.BomOfDesignators | lib/cpl.go:111-113 | a line lists, in order, the designators of every component with that part |
| Placement.BomOfFirst | lib/cpl.go:103-109 | a line's comment, package and part come from the first component with that part |
| Placement.BomDesignatorCount | lib/cpl.go:111-113 | a line lists as many designators as there are components with that part |
| Placement.BomGroupsByPart | lib/cpl.go:102-114 | R1 and R2 with one part share one line carrying R1's comment |
| Placement.PosRow | lib/cpl.go:135-158 | text fields are trimmed; x, y and the angle are parsed as 32-bit floats; a failed parse of any of the three sets the rotation to 0 |
| Placement.DataRows | lib/cpl.go:130-133 | no row whose trimmed first field is "Ref" is kept, and every other row is |
| Placement.DataRowsAppend | lib/cpl.go:130-133 | the rows kept from a concatenation are those kept from each part, concatenated: every non-header row is kept, in order |
| Placement.DataRowsSingle | lib/cpl.go:130-133 | a single row is kept exactly when it is not the header |
| Placement.PosComponentsFails | lib/cpl.go:121-162 | reading fails exactly when some non-header row has fewer than seven fields |
| Placement.PosComponentsFields | lib/cpl.go:130-159 | otherwise there is one component per non-header row, in order, read from that row |
| Placement.PosComponentsKeepsDataRows | lib/cpl.go:130-159 | a successful read holds the component of every non-header row, which has at least seven fields |
| Placement.PosDesignatorsTrimmed | lib/cpl.go:131-151 | read designators are trimmed and never "Ref" |
| Placement.PosStopsAtShortRow | lib/cpl.go:130-135 | a short row makes the whole file fail, whatever follows it |
| Placement.ReadPOS | lib/cpl.go:121-162 | the loop's components are those the row-by-row reading specifies |
| Placement.WriteCPL | lib/cpl.go:164-184 | the header, then per component its designator, x and y to 4 places, layer, and rotation to 0 places |
| Placement.BomRow | lib/cpl.go:196-201 | a BOM line has four columns |
| Placement.WriteBOM | lib/cpl.go:186-205 | the header, then one line per part id in iteration order |
| Placement.BomRowReadsBack | lib/cpl.go:196-201 | the part column reads back to the id, and the designator column splits back into the designators |
| Placement.BomRowsDistinct | lib/cpl.go:195-201 | different BOM lines name different parts |
| Generate.ParseRedesignations | cmd/generate.go:105-113 | the redesignated set is empty for an empty flag, and the comma-separated pieces otherwise |
| Generate.OverridesLastPair | cmd/generate.go:115-126 | a designator has an override exactly when some pair with it parses; the last such pair's angle wins |
| Generate.ParseRotations | cmd/generate.go:115-126 | no overrides for an empty flag; an odd list panics; otherwise the parsed pairs |
| Generate.KeyTellsAssembly | lib/cpl.go:36-42 | a component's key tells whether it can be assembled |
| Generate.StartSound | cmd/generate.go:130 | a new association map over a valid store is sound |
| Generate.LookupSound | lib/cpl.go:69-79 | a part found in a sound session agrees with the associations and is backed by the stored parts |
| Generate.LookupMissesAssemblable | lib/library.go:458-490 | only an assemblable component can be left without a part |
| Generate.ForgetSound | cmd/generate.go:138-140 | forgetting a redesignated association keeps the session sound |
| Generate.SetRotationSound | cmd/generate.go:152-154 | setting an associated part's rotation in the cache and the store keeps the session sound |
| Generate.OverrideOneSound | cmd/generate.go:137-155 | one step of the first pass keeps the session sound |
| Generate.OverrideAllSound | cmd/generate.go:136-156 | the first pass keeps the session sound |
| Generate.StuckStays | cmd/generate.go:136-156 | the first pass stops at its first panic |
| Generate.OverrideAllAssociations | cmd/generate.go:136-156 | the first pass removes exactly the redesignated keys' associations and keeps the package associations |
| Generate.OverrideOneForgets | cmd/generate.go:138-154 | a step that does not panic leaves an unassociated assemblable key unassociated, and forgets a redesignated one |
| Generate.OverrideAllForgets | cmd/generate.go:136-156 | after the first pass every assemblable redesignated key has no association in the cache or the store |
| Generate.OverrideAllRotates | cmd/generate.go:152-154 | the cached part of a key carries the angle of its last rotation override |
| Generate.OverrideAllStuck | cmd/generate.go:152-154 | the first pass panics only on a rotation override of an assemblable component with no association |
| Generate.OverrideComponent | cmd/generate.go:138-154 | one step over the live map and store does what the first-pass function says, panic included |
| Generate.RotateAssociated | cmd/generate.go:150-152 | the rotation override goes to the part the component is associated with, in the store and in the cached part; with no associated part it reports the panic |
| Generate.ApplyOverrides | cmd/generate.go:136-156 | the first-pass loop does what the first-pass function says and reports the designator it panicked on |
| Generate.AnswerPart | cmd/generate.go:183-187 | an empty answer, "C0" or an unknown id gives the skip part; a stored id gives its part |
| Generate.ResolveOneEffect | cmd/generate.go:166-200 | a component with a part keeps it and changes no association; otherwise the user is asked and the answer's part is associated |
| Generate.ResolveAllStep | cmd/generate.go:161-213 | one more component of the second pass changes only its own key's cache entry and, if asked, its associations |
| Generate.AnswerBacked | cmd/generate.go:183-187 | an answer's part is a stored part |
| Generate.AssociateSound | cmd/generate.go:184-186 | associating an assemblable component with a stored part keeps the session sound |
| Generate.ResolveOneSound | cmd/generate.go:166-200 | one step of the second pass keeps the session sound |
| Generate.ResolveAllSound | cmd/generate.go:161-213 | the second pass keeps the session sound and leaves the stored parts alone |
| Generate.ResolveAllPrefix | cmd/generate.go:161-213 | the pass over a prefix of the components decides that prefix alike |
| Generate.ResolveAllDecided | cmd/generate.go:161-213 | after the pass every component's key is cached with the part decided for it |
| Generate.SameKeySameDecision | cmd/generate.go:161-213 | components sharing a key are resolved to the same part |
| Generate.ResolveAllCache | cmd/generate.go:161-213 | the cache entry of a key no component has is untouched |
| Generate.ResolveAllAssociations | cmd/generate.go:184-186 | a key nobody was asked about keeps its association |
| Generate.ResolveAllPackages | cmd/generate.go:184-186 | a package nobody was asked about keeps its package association |
| Generate.ResolveAllAt | cmd/generate.go:161-213 | each component is decided by one step on the session its predecessors left |
| Generate.FirstLookup | cmd/generate.go:170 | the first component with a key looks up the store as the command found it |
| Generate.ResolveAllFirst | cmd/generate.go:166-188 | the first component with a key is asked exactly when it has no association, and gets its association or the answer's part |
| Generate.ResolveAllAsksOnce | cmd/generate.go:170-188 | a later component with a key already seen is never asked about |
| Generate.ResolveAllKeepsCache | cmd/generate.go:166-200 | a part cached before the second pass stays cached |
| Generate.ResolveAllCached | cmd/generate.go:166-200 | a component whose key had a cached part gets that part without asking |
| Generate.ResolvedAgree | cmd/generate.go:161-213 | every decision is recorded in the store, the skip part for non-assemblable components, and is a stored part |
| Generate.OverrideReachesPart | cmd/generate.go:152-211 | a component whose key has a last rotation override is resolved to a part carrying that angle |
| Generate.RedesignatedAreAsked | cmd/generate.go:138-188 | the first redesignated assemblable component with its key is asked about again |
| Generate.Kept | cmd/generate.go:193-198 | only components whose part has a non-zero id are kept, never more than were placed |
| Generate.Rotated | cmd/generate.go:211 | the CPL has one entry per kept component |
| Generate.KeptMembers | cmd/generate.go:193-204 | a component is kept with a part exactly when it was resolved to that part and its id is not 0 |
| Generate.NotAssembledNotKept | cmd/generate.go:193-195 | a component of a class the assembler does not place never reaches the BOM or the CPL |
| Generate.RotatedEntries | cmd/generate.go:206-211 | a CPL entry is the kept component turned by its part's correction and normalised, all else equal |
| Generate.Ask | cmd/generate.go:171-187 | the answer's part is associated with the component in the cache and the store |
| Generate.ResolveComponent | cmd/generate.go:166-200 | one component over the live map and store is resolved as the second-pass function says |
| Generate.Place | cmd/generate.go:193-211 | a skipped component is dropped; any other is added to the BOM and, rotated, to the CPL |
| Generate.ResolveComponents | cmd/generate.go:161-213 | the second-pass loop leaves the session the function computes and outputs the BOM and CPL of the kept components |
| Generate.BomOrder | lib/cpl.go:195 | the BOM is written in some order listing every part id exactly once |
| Generate.Run | cmd/generate.go:105-216 | an odd rotate list or a short position row panics with the store unchanged; otherwise the first pass's panic, or the BOM and CPL of the kept components, with the store as the two passes leave it and the rows of both files |
| Generate.Assemble | cmd/generate.go:127-216 | with the flags and the position file read: the first pass's panic, or the BOM and CPL of the kept components, with the store as the two passes leave it and the rows of both files |

## Left out

- The key/value store (BoltDB), gob encoding and the batching of transactions are maps updated in one step. Store errors are not modelled except the refusal of an empty key by Import's final transaction; `SetRotation` only prints them.
- Catalog.Library.constructor: opening an existing database file, whose buckets `CreateBucketIfNotExists` keeps, is not modelled; the constructor is a fresh file.
- Catalog.Library.Associate: when the board component's package is empty, the store refuses the empty package key and rolls back the association write with it; the model writes both. The association map's cache keeps the part in either case (lib/cpl.go:88-91), so the model's cache and store agree where the program's would not. The store clauses of `Generate.Ask`, `Generate.ResolvedAgree` (every decision recorded in the store), `Generate.Run` and `Generate.Assemble` inherit this: for such a component the program's store keeps neither write.
- Import's full-text index (bleve), the package and symbol buckets, and every other `Library` method outside the core are not part of this model.
- Import's reader goroutine and channel are a sequence of rows. Rows with fewer than nine fields are skipped as the reader skips them.
- CSV and Excel parsing and file-system errors are not modelled. Files arrive as rows; CPL and BOM files leave as rows.
- `Catalog.KnownFileType` lower-cases ASCII letters only; Go's `strings.ToLower` also folds other letters, which cannot change the three suffixes tested.
- `strconv.ParseFloat` and `fmt.Sprintf("%1.Nf")` are function parameters, `ParsedFloat` and `formatFloat`; float64 and float32 rounding are not modelled (angles are `real`). Neither are the infinities and NaN that `ParseFloat` accepts ("Inf", "NaN") from the position file or `--rotate`: on ±Inf the two loops of `Rotate` never end, and NaN passes through them unchanged; `Placement.Rotate` always ends with an angle in [0, 360].
- The interactive prompt is the `Resolver` parameter, a function of the component and its candidates. The suggestion filtering by the word before the cursor is part of the prompt.
- Go's random map iteration order in `WriteBOM` is some order chosen by `Generate.BomOrder`; every property holds for all orders.
- The messages printed with `fmt.Printf` are not modelled.
- The other commands, the Eagle, JLC and schematic code, and the helper Python scripts are not part of this model.
- The `kicad-cli` exports before the body and the gerber archive after it (cmd/generate.go:218-219) are not modelled.
- Generate.Run: after the nil-association panic, the contract does not state the store: the first pass's store writes up to the panic are kept by the method but not specified.
- Generate.Assemble: the same gap as Generate.Run after the nil-association panic.
- Board components are values: `Rotate`'s in-place update of the component the CPL list points to is modelled by putting the rotated value into the CPL list. `SetRotation` changes the part the cache handed out; the cached entry is rewritten with the new rotation.
- Util.NormalizeValue: its contract bounds how much is trimmed; the exact result is stated by `Util.NormalizeValueStripsUnit` and `Util.NormalizeValueUnchanged` for the cases they cover.
