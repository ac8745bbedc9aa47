# ComfyUI metadata sorting: a verified model of the classification core

This project models the part of the ComfyUI image sorter that decides
where things go. It reads the workflow graph stored in a PNG and
classifies the image by its base checkpoint, its LoRAs, its prompts and
its sampler. It then groups, searches, renames, colour-sorts or flattens
the images. The model is written in Dafny, and the properties below are
proved.

A decoded workflow is modelled as `Workflow.Graph`, an ordered sequence
of `(node id, entry)` pairs. Python dictionaries keep insertion order,
and several rules of the sorter are first-found-wins or last-found-wins
over that order. A node has a `class_type`, an `inputs` map of values
and an optional `_meta.title`. A value is a string, an int, a bool,
`None`, a list or some other JSON value, with Python truthiness.

The model is organised in modules:

- **Extractor** (`core/metadata_engine.py`, `MetadataExtractor`): the image's `info` slots are an abstract map, and JSON decoding is an abstract partial function. `extract_single`, `extract_batch` and `reset_statistics` are methods of a class whose fields are the `stats` counters and the `failed_files` list.
- **Analyzer** (`MetadataAnalyzer`): the checkpoint, LoRA, primary-checkpoint, sampler and prompt scans, as functions over the graph.
- **Formatter** (`core/enhanced_metadata_formatter.py`): the LoRA-stack and grouping signatures, the text-reference resolver, and the selection logic of the report sections.
- **CheckpointSorter** (`sorters/checkpoint_sorter.py`): grouping by checkpoint, folder-name cleaning, LoRA signature simplification, conflict naming and the shared rename counter.
- **MetadataSearch** (`sorters/metadata_search.py`): searchable content, the any/all/exact term tests, term folders and per-folder rename counters.
- **FilenameCleanup** (`sorters/filename_cleanup.py`): the rename test, the cleaning pipeline, zero-padded conflict names and the per-file decisions of `cleanup_directory`.
- **ColorSorter** (`sorters/color_sorter.py`): quantisation, nearest-palette categorisation and per-category rename counters.
- **ImageFlattener** (`sorters/image_flattener.py`): the preview counts, duplicate names and the naming of flattened files.
- **Shared modules**:
  - `Workflow`: graph and values.
  - `Text`: ASCII string functions.
  - `Paths`: POSIX `os.path` and `pathlib` name handling.
  - `StrOrder`: Python string order and `sorted(set(...))`.
  - `Counting`: `collections.Counter`.
  - `Probing`: the "while the name exists, try the next numbered one" loops.
  - `FileOps`: copy and move over the set of existing paths.

The file system is modelled as the set of paths that exist. A directory
walk or listing is an input sequence, and copying or moving a file
updates that set. An operation fails when its source does not exist or
when it copies a file onto itself. The clock (`time.time()`) and the
JSON text dump are parameters.

## Model

| member | source | states |
|---|---|---|
| Extractor.Primary | core/metadata_engine.py:50-61 | a truthy `prompt`/`parameters` value decides the call: success exactly when it decodes, otherwise the generic failure counter |
| Extractor.Fallback | core/metadata_engine.py:63-75 | a result is only ever taken from a listed slot that is present and truthy |
| Extractor.Extraction | core/metadata_engine.py:46-97 | the call yields a document or slot value exactly when its outcome is the success counter; a decoded document may be any JSON value, not only an object |
| Extractor.NullPromptCountsSuccess | core/metadata_engine.py:50-54 | a `prompt` that decodes to `null` is counted a success although the value returned is `None` |
| Extractor.PromptFailureNotRecovered | core/metadata_engine.py:50-97 | an undecodable truthy `prompt` ends in the generic failure with no metadata, whatever the other slots hold |
| Extractor.FallbackSkipsUndecodable | core/metadata_engine.py:64-75 | without `prompt`/`parameters`, an undecodable `workflow` text is skipped and a later non-text slot is returned as it is |
| Extractor.NoTruthySlotMeansNoMetadata | core/metadata_engine.py:77-79 | no truthy slot gives `None` and the no-metadata counter |
| Extractor.TallyTotal | core/metadata_engine.py:46-97 | the five outcome counts of a batch add up to its length: every file bumps exactly one counter |
| Extractor.AfterBatchCounts | core/metadata_engine.py:113-122 | a batch adds its length to `total_processed` and, to each counter, the number of files with that outcome |
| Extractor.MetadataExtractor.constructor | core/metadata_engine.py:25-34 | all counters start at zero and the failure list is empty |
| Extractor.MetadataExtractor.Record | core/metadata_engine.py:81-97 | bumps exactly the outcome's counter and logs the path only for the three failure outcomes |
| Extractor.MetadataExtractor.ExtractSingle | core/metadata_engine.py:36-97 | returns the outcome's metadata, bumps exactly one counter and appends to `failed_files` only on a failure |
| Extractor.MetadataExtractor.ExtractBatch | core/metadata_engine.py:99-130 | maps every path, and no other, to its own extraction; the counters and the failure log are those of the batch in order |
| Extractor.MetadataExtractor.ResetStatistics | core/metadata_engine.py:144-147 | every counter is zero and the failure list is empty |
| Analyzer.Dedup | core/metadata_engine.py:172 | `list(set(...))` holds no duplicates and has the same elements |
| Analyzer.CollectedElements | core/metadata_engine.py:160-170 | the collected values are exactly the values stored under the searched fields anywhere in the graph |
| Analyzer.ExtractCheckpoints | core/metadata_engine.py:154-172 | each checkpoint value appears once, and the elements are exactly the checkpoint field values; an empty graph gives `[]` |
| Analyzer.ExtractLoras | core/metadata_engine.py:175-188 | each `lora_name` value appears once and nothing else; an empty graph gives `[]` |
| Workflow.Or | core/metadata_engine.py:224-228 | Python's `a or b`, also `if not slot: slot = v`: a truthy slot is kept, a falsy one takes the new value |
| Analyzer.Overrides | core/metadata_engine.py:209-211 | every recorded `base_ckpt` override is truthy |
| Analyzer.ExtractPrimaryCheckpoint | core/metadata_engine.py:191-236 | an empty graph gives `None`; a truthy base slot is the result; the refiner test uses the lowercased node key (core/metadata_engine.py:204-207), not `_meta.title` |
| Analyzer.SettleSnoc | core/metadata_engine.py:224-233 | "assign when falsy" over one more candidate is one more `Or` |
| Analyzer.SettleFirstTruthy | core/metadata_engine.py:224-233 | a slot filled that way holds the first truthy candidate |
| Analyzer.SettleAllFalsy | core/metadata_engine.py:224-233 | with no truthy candidate the slot stays falsy |
| Analyzer.ScanCharacterization | core/metadata_engine.py:204-233 | after the loop the base slot is the last override if there is one, else the first truthy non-refiner `ckpt_name`; the refiner slot is the first truthy refiner candidate |
| Analyzer.ScanBase | core/metadata_engine.py:204-233 | the base-slot half of the loop characterisation |
| Analyzer.ScanRefiner | core/metadata_engine.py:204-233 | the refiner-slot half of the loop characterisation |
| Analyzer.PrimaryCheckpointSpec | core/metadata_engine.py:204-236 | the result is `base or refiner` of those two candidate rules |
| Analyzer.OverridesLast | core/metadata_engine.py:209-211 | the last override is the `base_ckpt` of the last node that has a truthy one |
| Analyzer.PrimaryOverride | core/metadata_engine.py:209-236 | a truthy `base_ckpt` wins outright, and the last such node decides |
| Analyzer.PrimaryFromBase | core/metadata_engine.py:213-236 | without an override, the first truthy `ckpt_name` of a node not classed as refiner (by class, lowercased key, step or refiner inputs) is the result |
| Analyzer.PrimaryFromRefiner | core/metadata_engine.py:223-236 | the refiner slot is returned only when no base was found, first-found-wins |
| Analyzer.PrimaryNone | core/metadata_engine.py:236 | with no truthy candidate the result is falsy |
| Analyzer.FirstSampler | core/metadata_engine.py:245-257 | the node found is a `KSampler`/`KSamplerAdvanced` |
| Analyzer.NonNullFields | core/metadata_engine.py:259 | exactly the listed keys whose value is present and not `None`, with their values |
| Analyzer.ExtractSamplingParams | core/metadata_engine.py:239-259 | only the first sampler is read and `None` values are omitted; no sampler gives `{}` |
| Analyzer.SamplingIgnoresLaterNodes | core/metadata_engine.py:257 | whatever follows the first sampler does not change the result |
| Analyzer.PromptTextsTruthy | core/metadata_engine.py:273-277 | only truthy encoder texts are recorded |
| Analyzer.PromptScanCharacterization | core/metadata_engine.py:268-277 | the loop keeps the first truthy text as positive and the second as negative |
| Analyzer.ExtractPrompts | core/metadata_engine.py:262-279 | the positive prompt is the first truthy `CLIPTextEncode` text, the negative the second, `''` when missing |
| Formatter.LoraLoaderNames | core/enhanced_metadata_formatter.py:76-86 | a value is collected exactly when some `LoraLoader` node names it |
| Formatter.SortedLoraNames | core/enhanced_metadata_formatter.py:89 | `sorted(set(loras))`: strictly increasing and exactly the collected names |
| Formatter.LoraStackSignature | core/enhanced_metadata_formatter.py:72-90 | no `LoraLoader` names give `""` |
| Formatter.LoraNamesPermutation | core/enhanced_metadata_formatter.py:83-86 | permuting the nodes keeps the set of LoRA names |
| Formatter.LoraStackSignatureOrderIndependent | core/enhanced_metadata_formatter.py:88-90 | equal LoRA name sets give equal stack signatures, whatever the node order or duplicates |
| Formatter.GroupingSignature | core/enhanced_metadata_formatter.py:92-118 | the primary checkpoint (or `"None"`) alone without LoRAs, else `"<base> \| <sorted names>"`; never falsy |
| Formatter.GroupingSignatureOrderIndependent | core/enhanced_metadata_formatter.py:105-118 | equal primary checkpoints and LoRA name sets give equal signatures |
| Formatter.Direct | core/enhanced_metadata_formatter.py:283-317 | a found text is stripped, a direct node never raises, and `Text Load Line From File` gives `None` |
| Formatter.Resolve | core/enhanced_metadata_formatter.py:274-317 | a found text is stripped; a list id raises; an absent id gives `None`; running out of recursion raises |
| Formatter.ResolveFuelMonotone | core/enhanced_metadata_formatter.py:296-299 | a result that did not exhaust the recursion is the same with any larger bound |
| Formatter.ResolveCycle | core/enhanced_metadata_formatter.py:296-299 | two `ShowText` nodes linking to each other exhaust every recursion bound |
| Formatter.PositiveScanCharacterization | core/enhanced_metadata_formatter.py:229-264 | the first loop keeps the last usable base and refiner prompts, and stops at the first resolution that raises |
| Formatter.PositivePromptSpec | core/enhanced_metadata_formatter.py:220-272 | the positive prompt is the last usable base prompt, else the last usable refiner prompt |
| Formatter.NegativeScan | core/enhanced_metadata_formatter.py:325-348 | a found negative prompt is non-empty |
| Formatter.NegativePromptFirst | core/enhanced_metadata_formatter.py:335-348 | the first negative node with a usable text decides |
| Formatter.LastFieldSnoc | core/enhanced_metadata_formatter.py:369-407 | one more sampler node updates exactly the fields it carries |
| Formatter.SamplingScanCharacterization | core/enhanced_metadata_formatter.py:369-407 | each slot holds the value of the last base (or refiner) sampler that has that key |
| Formatter.SamplingSelection | core/enhanced_metadata_formatter.py:409-413 | `steps`/`cfg` fall back to the refiner only when the base value is `None`; `sampler_name`/`scheduler` whenever it is falsy |
| Formatter.ResolutionSizePart | core/enhanced_metadata_formatter.py:487-488 | the text before the first space of `"WxH (r)"` is `"WxH"` |
| Formatter.ResolutionRoundTrip | core/enhanced_metadata_formatter.py:487-488 | `"WxH (r)"` parses back to `(W, H)` |
| Formatter.ImageNext | core/enhanced_metadata_formatter.py:474-508 | after a `break` the scan state no longer changes |
| Formatter.ImageParameters | core/enhanced_metadata_formatter.py:467-516 | once the scan ends without raising: the scanned width and height are reported exactly when both are truthy and numeric, nothing is reported when either is falsy, and a truthy text or list dimension makes the aspect-ratio division raise; a raising scan raises |
| Formatter.PickerParseErrorContinues | core/enhanced_metadata_formatter.py:481-490 | a size picker whose resolution text does not parse leaves the scan going with the dimensions it had |
| Formatter.LatentLastWins | core/enhanced_metadata_formatter.py:493-497 | of two latent-size nodes giving both dimensions, the later one's are kept |
| Formatter.RefinerOnlyWhenUnset | core/enhanced_metadata_formatter.py:500-507 | a refiner encoder's dimensions are taken exactly when neither dimension is truthy yet; otherwise the scan is unchanged |
| Formatter.ImageScanStays | core/enhanced_metadata_formatter.py:489 | nodes after a stop do not matter |
| Formatter.ImageScanStopsAt | core/enhanced_metadata_formatter.py:489 | the first stopping node decides the scan |
| Formatter.PickerStep | core/enhanced_metadata_formatter.py:482-491 | a size picker whose resolution reads `"WxH (r)"` stops the scan with W and H |
| Formatter.PickerDecides | core/enhanced_metadata_formatter.py:482-491 | such a picker supplies the reported dimensions whatever nodes follow |
| Formatter.UpscaleModelsAt | core/enhanced_metadata_formatter.py:528-537 | every upscale loader's id maps to its `model_name` |
| Formatter.FindUpscale | core/enhanced_metadata_formatter.py:540-572 | a result comes from an upscaling node; none exactly when there is no upscaling node |
| Formatter.FirstUpscale | core/enhanced_metadata_formatter.py:557-572 | the first upscaling node decides |
| Formatter.UpscalingSection | core/enhanced_metadata_formatter.py:518-584 | a section exists exactly when some node upscales |
| Formatter.UpscaleUsesLinkedLoader | core/enhanced_metadata_formatter.py:547-557 | a first upscaling node linked to a loader reports that loader's model and its own class |
| Formatter.DisplayName | core/enhanced_metadata_formatter.py:152 | the displayed name is the longest suffix of the path without the separator: it is the whole path or is preceded by `\` when the path has one, else by `/` |
| Formatter.ModelsSection | core/enhanced_metadata_formatter.py:130-160 | a base line exactly when the primary checkpoint is truthy and a VAE line exactly when the last VAE loader names one, each a separator-free suffix |
| Formatter.LoraLineNumber | core/enhanced_metadata_formatter.py:183 | two LoRA lines that are equal carry the same number, whatever the names |
| Formatter.NumberedLines | core/enhanced_metadata_formatter.py:177-190 | one line per name, numbered from 1 in order; no two lines are equal, even for repeated names |
| Formatter.LorasSection | core/enhanced_metadata_formatter.py:162-195 | one numbered line per `LoraLoader`, in node order |
| CheckpointSorter.MetaOf | sorters/checkpoint_sorter.py:176 | a path with no entry has no metadata |
| CheckpointSorter.SafeChars | sorters/checkpoint_sorter.py:321-324 | no unsafe character remains, and safe text is unchanged |
| CheckpointSorter.CleanCheckpointName | sorters/checkpoint_sorter.py:315-333 | at most 50 characters, none of `< > : " \| ? * / \` |
| CheckpointSorter.CleanCheckpointNameOfPath | sorters/checkpoint_sorter.py:318 | the directory and the last extension are dropped from a safe short stem |
| CheckpointSorter.LoraNamePart | sorters/checkpoint_sorter.py:300-305 | each simplified name has at most 15 characters |
| CheckpointSorter.SimplifiedNames | sorters/checkpoint_sorter.py:297-306 | names of at most 15 characters; none exactly when no piece holds `@` |
| CheckpointSorter.SimplifiedNamesAppend | sorters/checkpoint_sorter.py:297-306 | only pieces holding `@` contribute, in order |
| CheckpointSorter.SimplifyLoraSignature | sorters/checkpoint_sorter.py:291-313 | never empty, at most 40 characters, `CustomLoRAs` without any `@` |
| CheckpointSorter.SimplifySingle | sorters/checkpoint_sorter.py:294-313 | a single short `name@strength` simplifies to the name |
| CheckpointSorter.KindOf | sorters/checkpoint_sorter.py:176-203 | `No_Metadata` exactly for a falsy graph, `Unknown_Checkpoint` exactly for a graph without a truthy primary checkpoint, else a folder of at most 50 characters |
| CheckpointSorter.AddTo | sorters/checkpoint_sorter.py:186-189 | a new key goes last and the file joins that key's list only |
| CheckpointSorter.TalliedCounts | sorters/checkpoint_sorter.py:190-203 | `unknown_checkpoint` and `failed_extractions` grow by the number of files of each kind, nothing else changes |
| CheckpointSorter.GroupedPartition | sorters/checkpoint_sorter.py:175-203 | distinct group keys; each group holds exactly its files in input order; a key exists exactly when some file has it |
| CheckpointSorter.TargetNamesDistinct | sorters/checkpoint_sorter.py:391-396 | different counters give different renamed names |
| CheckpointSorter.InFolder | sorters/checkpoint_sorter.py:378 | each file of a group is visited with the group's folder, in order |
| CheckpointSorter.PlacedFresh | sorters/checkpoint_sorter.py:405-413 | every destination was free beforehand and no two files share one |
| CheckpointSorter.CheckpointSorter.constructor | sorters/checkpoint_sorter.py:34-52 | zero counters and no folders |
| CheckpointSorter.CheckpointSorter.GroupByCheckpoint | sorters/checkpoint_sorter.py:167-209 | returns the partition above and bumps the counters as tallied |
| CheckpointSorter.SignatureOf | sorters/checkpoint_sorter.py:218-226 | a file's grouping signature, `"None"` without metadata, is never empty |
| CheckpointSorter.CheckpointSorter.GroupByCheckpointAndLora | sorters/checkpoint_sorter.py:211-289 | the very same groups and counter changes as grouping by checkpoint |
| CheckpointSorter.CheckpointSorter.CreateCheckpointFolders | sorters/checkpoint_sorter.py:335-342 | each name maps to its path below the output directory, other entries unchanged, `folders_created` grows by the number of names |
| CheckpointSorter.CheckpointSorter.ResolveFilenameConflict | sorters/checkpoint_sorter.py:428-441 | the path itself when free, else the smallest free `base_k+ext`; `duplicates_handled` grows by one exactly on a conflict |
| CheckpointSorter.CheckpointSorter.SortGroup | sorters/checkpoint_sorter.py:378-417 | each file of a group goes to its resolved target with the shared counter |
| CheckpointSorter.CheckpointSorter.SortGroupAt | sorters/checkpoint_sorter.py:367-378 | a group without a folder mapping is skipped |
| CheckpointSorter.CheckpointSorter.SortFilesToFolders | sorters/checkpoint_sorter.py:344-426 | the n-th visited file is placed at the free name its target resolves to; counters grow by the moves and the conflicts |
| MetadataSearch.Put | sorters/metadata_search.py:274-278 | a new key goes last, an existing key keeps its place |
| MetadataSearch.Content | sorters/metadata_search.py:260-269 | the content dictionary has the fields in their order |
| MetadataSearch.ContentAliases | sorters/metadata_search.py:260-269 | `lora_name` equals `loras`, `prompts` joins both prompts and `full_metadata` is the lowered dump |
| MetadataSearch.Filtered | sorters/metadata_search.py:272-280 | the filtered dictionary is well formed |
| MetadataSearch.FilteredSpec | sorters/metadata_search.py:272-280 | keeps exactly the requested known fields with their values, plus `full_metadata` exactly when a requested field is unknown |
| MetadataSearch.FilteredKnown | sorters/metadata_search.py:274-276 | distinct known fields are kept in the order asked |
| MetadataSearch.SearchableContent | sorters/metadata_search.py:249-282 | the searchable dictionary is well formed |
| MetadataSearch.TermMatches | sorters/metadata_search.py:307-328 | true exactly when some non-empty field contains the term, both lowered unless case-sensitive |
| MetadataSearch.SearchAnyTerm | sorters/metadata_search.py:284-289 | true exactly when some term matches; false for no terms |
| MetadataSearch.SearchAllTerms | sorters/metadata_search.py:291-296 | true exactly when every term matches; true for no terms |
| MetadataSearch.AllTermsImpliesExact | sorters/metadata_search.py:298-305 | every image "all" accepts, "exact" accepts |
| MetadataSearch.ExactSpansFields | sorters/metadata_search.py:298-305 | the converse fails: a term may span two joined fields |
| MetadataSearch.LoraFieldIgnoresPrompts | sorters/metadata_search.py:145-165 | the specific-LoRA search places no condition on the prompts, linked or not |
| MetadataSearch.MatchesCases | sorters/metadata_search.py:219-242 | no metadata, an unknown mode or an empty "any" search never matches; an empty "all" search matches any image with metadata |
| MetadataSearch.MatchSetSpec | sorters/metadata_search.py:219-244 | a file is in the match set exactly when it is listed and matches |
| MetadataSearch.CleanTerm | sorters/metadata_search.py:337 | same length; every unsafe character becomes `_`, the rest stay |
| MetadataSearch.NameMatchesSpec | sorters/metadata_search.py:339-342 | a term folder holds exactly the matches whose name contains the term, ignoring case |
| MetadataSearch.Organize | sorters/metadata_search.py:330-351 | all matches go to `search_results` exactly when no term has a match, else the term folders |
| MetadataSearch.TermFolderKeys | sorters/metadata_search.py:335-351 | a folder exists exactly for the cleaned terms with a match |
| MetadataSearch.TermFolderValues | sorters/metadata_search.py:335-351 | a folder holds the matches of the last term cleaned to its name |
| MetadataSearch.PngFilesSpec | sorters/metadata_search.py:189-197 | every `.png` entry (any case) is listed, joined to the directory, and nothing else |
| MetadataSearch.RenamedTargets | sorters/metadata_search.py:389-398 | with renaming, the j-th file of a folder becomes `{prefix}_{folder}_img{j+1}{ext}` |
| MetadataSearch.NoOverwrite | sorters/metadata_search.py:399-404 | without renaming, a sorted file never lands on an existing path |
| MetadataSearch.FolderRunSorted | sorters/metadata_search.py:415 | `images_sorted` counts the successful transfers of a folder |
| MetadataSearch.RunSorted | sorters/metadata_search.py:415 | `images_sorted` counts the successful transfers of the run |
| MetadataSearch.LoraSearch | sorters/metadata_search.py:145-165 | the LoRA search matches exactly when the LoRA names contain the name, ignoring case |
| MetadataSearch.PromptSearch | sorters/metadata_search.py:167-187 | the prompt search matches exactly when some (or every) keyword is in a prompt |
| MetadataSearch.MetadataSearchSorter.constructor | sorters/metadata_search.py:32-47 | all counters start at zero |
| MetadataSearch.MetadataSearchSorter.SearchMetadata | sorters/metadata_search.py:206-247 | the matches are exactly the listed files that match; `images_matched` is their number |
| MetadataSearch.MetadataSearchSorter.OrganizeBySearchTerms | sorters/metadata_search.py:330-351 | computes the organisation above |
| MetadataSearch.MetadataSearchSorter.CollectNameMatches | sorters/metadata_search.py:339-342 | collects the matches whose name contains the term, in order |
| MetadataSearch.MetadataSearchSorter.CreateSearchFolders | sorters/metadata_search.py:353-359 | one path per name below the output directory, each counted |
| MetadataSearch.MetadataSearchSorter.SortFolder | sorters/metadata_search.py:380-418 | transfers a folder's files in order; with renaming its counter ends at the number of files plus one, other counters unchanged |
| MetadataSearch.MetadataSearchSorter.SortAll | sorters/metadata_search.py:374-418 | transfers every folder in dictionary order |
| MetadataSearch.MetadataSearchSorter.SortSearchResults | sorters/metadata_search.py:361-418 | the operations and paths of that run, with `images_sorted` grown by its successes |
| MetadataSearch.MetadataSearchSorter.FindPngFiles | sorters/metadata_search.py:189-197 | the `.png` entries joined to the directory |
| MetadataSearch.MetadataSearchSorter.Listing | sorters/metadata_search.py:349 | `list(matches)` holds each match once |
| MetadataSearch.MetadataSearchSorter.SearchAndSort | sorters/metadata_search.py:49-143 | no images: nothing matched or sorted; otherwise the matches, their organisation (one folder without subfolders, else `Organize` over an enumeration of the matches) and the sorting run, with counters to match |
| MetadataSearch.MetadataSearchSorter.SearchSpecificLora | sorters/metadata_search.py:145-165 | the images whose LoRA names contain the name, sorted |
| MetadataSearch.MetadataSearchSorter.SearchByPromptKeywords | sorters/metadata_search.py:167-187 | the images whose prompts contain some (or every) keyword, organised into keyword folders by `Organize`, sorted |
| FilenameCleanup.ShouldRenameSpec | sorters/filename_cleanup.py:131-139 | renamed exactly when the name holds a marker and ends, in any case, in an image extension |
| FilenameCleanup.JsonNotRenamed | sorters/filename_cleanup.py:138-139 | a `.json` name is never renamed |
| FilenameCleanup.StrippedHasNoUnderscore | sorters/filename_cleanup.py:151-158 | the pattern list deletes every underscore of the stem |
| FilenameCleanup.TidyUnderscores | sorters/filename_cleanup.py:151-163 | underscores are deleted before whitespace becomes `_`, so the collapse changes nothing |
| FilenameCleanup.TidySpec | sorters/filename_cleanup.py:161-163 | the tidied stem has no whitespace, no `__` and no `_`/`-` at either end |
| FilenameCleanup.CleanStemSpec | sorters/filename_cleanup.py:165-173 | the stem is never empty; empty or generic stems become `prefix_timestamp`, others stay tidied |
| FilenameCleanup.CleanFilenameSpec | sorters/filename_cleanup.py:144-175 | the `splitext` extension is kept after the cleaned stem |
| FilenameCleanup.ConflictFreeSpec | sorters/filename_cleanup.py:177-187 | the path when free, else `name_NNNext` for the smallest free NNN, never taken |
| FilenameCleanup.ResolveNamingConflict | sorters/filename_cleanup.py:177-187 | the loop returns that name |
| FilenameCleanup.Decide | sorters/filename_cleanup.py:81-98 | remove exactly metadata files when asked; rename only markers to a different name |
| FilenameCleanup.ApplySpec | sorters/filename_cleanup.py:81-115 | each action moves at most one counter by one and never `total_files` |
| FilenameCleanup.MetadataNeverRenamed | sorters/filename_cleanup.py:81-93 | a `_metadata.json` file is never renamed |
| FilenameCleanup.DryRunKeepsFiles | sorters/filename_cleanup.py:90-115 | a dry run removes and moves nothing and counts no error |
| FilenameCleanup.FilesConserved | sorters/filename_cleanup.py:71-115 | the number of files drops by exactly the number removed: nothing is lost or overwritten |
| FilenameCleanup.RunCounted | sorters/filename_cleanup.py:71-115 | every file moves at most one counter |
| FilenameCleanup.ApplyAction | sorters/filename_cleanup.py:81-115 | carries out one decision |
| FilenameCleanup.FilenameCleanup.constructor | sorters/filename_cleanup.py:17-25 | zero counters |
| FilenameCleanup.FilenameCleanup.CleanupDirectory | sorters/filename_cleanup.py:26-129 | counters reset, then the per-file run; success exactly when no error was counted |
| ColorSorter.QuantizeSpec | sorters/color_sorter.py:64 | `c//10*10` is a multiple of 10 in `(c-10, c]`, idempotent, and within `0..250` for a channel |
| ColorSorter.GroupedSpec | sorters/color_sorter.py:64 | two pixels are counted together exactly when every channel has the same tens |
| ColorSorter.SqDistZero | sorters/color_sorter.py:90 | distance 0 exactly for the colour itself |
| ColorSorter.NearestUnique | sorters/color_sorter.py:87-93 | the earliest nearest entry is unique |
| ColorSorter.ScanNearest | sorters/color_sorter.py:87-93 | the loops end on the earliest palette entry at the smallest distance |
| ColorSorter.RootScanAgrees | sorters/color_sorter.py:90-91 | comparing `** 0.5` distances picks the same category as comparing squared distances |
| ColorSorter.CategorizeSpec | sorters/color_sorter.py:78-95 | `Unknown` exactly for no colour; otherwise one of the palette categories, that of the earliest nearest entry |
| ColorSorter.ExactColour | sorters/color_sorter.py:87-93 | a palette colour gets the category of its first occurrence |
| ColorSorter.CategorizeColor | sorters/color_sorter.py:78-95 | computes that category |
| ColorSorter.NearestCategory | sorters/color_sorter.py:84-95 | the nested loops compute the scan |
| ColorSorter.Categories | sorters/color_sorter.py:150-161 | one category per file, in order |
| ColorSorter.CountCategories | sorters/color_sorter.py:150-161 | the analysis loop computes them |
| ColorSorter.StartCounters | sorters/color_sorter.py:185-188 | every category starts at 1 when renaming |
| ColorSorter.NextTarget | sorters/color_sorter.py:198-208 | the i-th file is numbered by its category's files so far plus one |
| ColorSorter.TargetOf | sorters/color_sorter.py:197-219 | the renamed name or the conflict-free original name |
| ColorSorter.RenamedPerCategory | sorters/color_sorter.py:185-208 | with renaming, a file is `{prefix}_{cat}_img{n}` with n its place within its category |
| ColorSorter.TargetsDistinct | sorters/color_sorter.py:203-206 | different numbers in one category give different paths |
| ColorSorter.NamerSeparates | sorters/color_sorter.py:198-208 | the renaming namer never repeats a name within a category |
| ColorSorter.RenamedDistinctInCategory | sorters/color_sorter.py:198-208 | two files of one category never share a target |
| ColorSorter.NoOverwrite | sorters/color_sorter.py:209-219 | without renaming, a file never lands on an existing path |
| ColorSorter.TargetIgnoresNumber | sorters/color_sorter.py:209-219 | without renaming the counter plays no part |
| ColorSorter.ColorRunOps | sorters/color_sorter.py:190-230 | the j-th operation moves the j-th file to its target at that point |
| ColorSorter.ColorRunSorted | sorters/color_sorter.py:230 | `successful` counts the transfers that succeeded |
| ColorSorter.SortOne | sorters/color_sorter.py:191-230 | one more file extends the run |
| ColorSorter.SortFiles | sorters/color_sorter.py:190-237 | the loop computes the run |
| ColorSorter.SortByColor | sorters/color_sorter.py:97-273 | the category counts; nothing and failure for no files; otherwise the run, succeeding exactly when some file was sorted |
| ImageFlattener.IsImageSpec | sorters/image_flattener.py:61 | `base.ext` is an image exactly when `.ext` lowered is an image extension |
| ImageFlattener.NotAnImage | sorters/image_flattener.py:61 | a name without a suffix is never an image |
| ImageFlattener.SuffixLower | sorters/image_flattener.py:61 | lowering the name lowers its suffix |
| ImageFlattener.ImageNamesSpec | sorters/image_flattener.py:187-191 | a name is kept exactly when it is listed and is an image |
| ImageFlattener.TotalImagesSpec | sorters/image_flattener.py:183-212 | `total_images` equals the number of image names and of image paths |
| ImageFlattener.FolderStatsKeys | sorters/image_flattener.py:193-195 | a key is recorded exactly when some folder with images has it, with a positive count |
| ImageFlattener.FoldersCount | sorters/image_flattener.py:193-228 | `folders` is at most, and with distinct keys exactly, the number of folders with images |
| ImageFlattener.RootKeyShared | sorters/image_flattener.py:194 | a top-level folder named `ROOT` overwrites the source folder's entry |
| ImageFlattener.DuplicateNamesSpec | sorters/image_flattener.py:214-216 | a name is a duplicate exactly when two images carry it |
| ImageFlattener.NoDuplicates | sorters/image_flattener.py:214-230 | `duplicates` is 0 exactly when all image names differ |
| ImageFlattener.PreviewFlatten | sorters/image_flattener.py:170-231 | the preview's total, folder counts and duplicate count |
| ImageFlattener.CountImages | sorters/image_flattener.py:185-191 | `image_count` is the number of images in the folder |
| ImageFlattener.CollectImages | sorters/image_flattener.py:209-212 | the folder's image names in order |
| ImageFlattener.FindImages | sorters/image_flattener.py:57-62 | every image path in walk order |
| ImageFlattener.DirImages | sorters/image_flattener.py:59-62 | one folder's image paths in order |
| ImageFlattener.FlattenOps | sorters/image_flattener.py:79-112 | the j-th operation transfers the j-th file to its target at that point |
| ImageFlattener.RenamedSequence | sorters/image_flattener.py:82-89 | with renaming, file j becomes `{prefix}_img{j+1}{suffix}` |
| ImageFlattener.RenamedUnique | sorters/image_flattener.py:82-89 | with renaming, no two files get the same target |
| ImageFlattener.OwnNameWhenFree | sorters/image_flattener.py:91-101 | without renaming, a file whose name is free keeps it |
| ImageFlattener.ProbesZero | sorters/image_flattener.py:96-101 | the conflict loop probes nothing exactly when the name is free |
| ImageFlattener.NoProbes | sorters/image_flattener.py:96-101 | `duplicates_count` is 0 exactly when no file needed a probe |
| ImageFlattener.RenamedNoDuplicates | sorters/image_flattener.py:82-101 | renaming never counts a duplicate |
| ImageFlattener.DuplicatesZero | sorters/image_flattener.py:91-101 | without renaming, `duplicates_count` is 0 exactly when every name was free when reached |
| ImageFlattener.FlattenSorted | sorters/image_flattener.py:112-120 | `moved_count` counts the transfers that succeeded |
| ImageFlattener.FlatTargetOf | sorters/image_flattener.py:82-101 | the target and the number of probes of one file |
| ImageFlattener.FlattenOne | sorters/image_flattener.py:79-120 | one more file extends the run; the rename counter is the next number |
| ImageFlattener.FlattenAll | sorters/image_flattener.py:74-120 | the loop computes the run |
| ImageFlattener.FlattenImages | sorters/image_flattener.py:27-142 | no images: failure and nothing done; otherwise the run, succeeding exactly when a file was transferred, with cleanup only after moving |
| Probing.FreeNameSpec | sorters/checkpoint_sorter.py:428-441 | the wanted name when free with no probe, else the first free candidate; never taken |
| Probing.FirstFree | sorters/image_flattener.py:96-101 | the probe loop returns that name and counts its probes |
| Probing.ResolvesUnique | sorters/checkpoint_sorter.py:428-441 | only one name satisfies the conflict rule |
| Probing.ResolvedSpec | sorters/metadata_search.py:420-432 | the resolved name satisfies the rule and is free |
| Probing.ResolveNumbered | sorters/metadata_search.py:420-432 | the loop returns that name |
| Probing.StemFreeSpec | sorters/color_sorter.py:214-219 | the name when free, else the first free `stem_k` name, never taken |
| Probing.RenamedDistinct | sorters/metadata_search.py:393-396 | different counters in one folder give different names |
| Counting.TallySpec | sorters/image_flattener.py:214-215 | `Counter` records exactly the listed names, each with its number of occurrences |
| Counting.Repeated | sorters/image_flattener.py:216 | a name occurs more than once exactly when two positions hold it |
| FileOps.TransferSpec | sorters/image_flattener.py:104-112 | after a transfer the destination exists, a move removes the source, and failure changes nothing |
| FileOps.TransferCounts | sorters/image_flattener.py:104-112 | a successful transfer is counted once |
| StrOrder.SortedDistinct | core/enhanced_metadata_formatter.py:89 | `sorted(set(...))` is strictly increasing with the same elements |
| StrOrder.SortedDistinctDependsOnlyOnElements | core/enhanced_metadata_formatter.py:89 | two lists with the same names sort to the same list |

## Left out

- Image decoding, logging, printing, progress callbacks and `gc.collect()` are not modelled. They have no effect on the results.
- `Extractor.Extraction`: `json.loads` is an abstract partial function from text to a JSON document (an object or any other value), so the JSON text format is not modelled. A document that is not an object is returned as it is, and `null` stands for the `None` the source returns while counting a success. PIL's `Image.open` is an input per path: `info`, an access error or a memory error.
- `Extractor.MetadataExtractor.ExtractBatch`: the result dictionary is given as a map, so key order is not recorded. A path listed twice keeps its last result, as in the source.
- `get_statistics`, `search_metadata` of `MetadataAnalyzer`, `get_base_model`, the header, VAE, refiner, post-processing, advanced and technical report sections, and `format_metadata_to_text` are not part of this model. They only format text.
- `Formatter.Resolve`: Python's recursion limit is a `fuel` bound. Exhausting it gives `Failed(RecursionLimit)`, and `ResolveFuelMonotone` shows that enough fuel gives the unbounded result. A list node id, which raises `TypeError`, gives `Failed(UnhashableId)`. Other non-string ids are treated as absent.
- `Formatter.LorasSection`: the strength suffix (`strength != 1.0`) compares floats and is left out. Only the names and their numbering are modelled.
- `Formatter.ImageParameters`: the aspect-ratio text and the float division behind it are left out. Only the `TypeError` that the division raises for a truthy text or list dimension (a linked `["5", 0]`, for instance) is modelled, as `DimsCrash`. A value of another type is assumed to divide.
- `Formatter.LoraStackSignature`, `Formatter.GroupingSignature` and `Formatter.LorasSection` require every `LoraLoader` name to be text. For any other value the source raises: `TypeError` from `set()` or `','.join` (core/enhanced_metadata_formatter.py:89-90, 109-113), or the `in`/`split` test of `_format_loras_section` (core/enhanced_metadata_formatter.py:179). That crash path is not modelled.
- `CheckpointSorter.CheckpointSorter.GroupByCheckpointAndLora` requires the same of each file's LoRA names, because its signature pass raises there and `sort_by_checkpoint` does not catch it.
- `CheckpointSorter.KindOf` and the grouping methods require a truthy primary checkpoint to be text. `Path(...)` in `_clean_checkpoint_name` raises `TypeError` otherwise (sorters/checkpoint_sorter.py:318), and that crash path is not modelled.
- `Analyzer.ExtractCheckpoints` and `Analyzer.ExtractLoras` require the collected values to be hashable. `set()` of a list value raises `TypeError` (core/metadata_engine.py:172, 188), and that crash path is not modelled.
- `Formatter.ImageParameters`: a size picker's `resolution` that is neither text nor a list is taken to raise. That holds for numbers, `None` and booleans (`'x' in` raises `TypeError`), and for a dictionary with an `x` key (`.split` raises `AttributeError`). A dictionary without an `x` key is a key test that fails and lets the scan go on (core/enhanced_metadata_formatter.py:482-483). The model does not tell dictionaries apart from other values, so it raises there too.
- `Formatter.ModelsSection` requires the primary checkpoint and the last VAE name to be text whenever they are truthy. For a truthy non-text value `.split` raises `AttributeError` (core/enhanced_metadata_formatter.py:149-157). That crash path is not modelled.
- `CheckpointSorter.MetaOf`, `CheckpointSorter.KindOf`, the grouping methods, `MetadataSearch.MatchSet` and `MetadataSearch.MetadataSearchSorter.SearchMetadata` take each extraction result as a JSON object or nothing, as the sorters' annotations say (sorters/checkpoint_sorter.py:158). The extractor can also return a raw text chunk or a decoded value that is not an object (see `Extractor.Extraction`). A falsy one behaves as nothing. A truthy one makes `extract_primary_checkpoint` or the analyzer's `.items()` raise `AttributeError` (sorters/checkpoint_sorter.py:178-180, sorters/metadata_search.py:222-226). That crash path is not modelled.
- `Analyzer.Dedup` compares values structurally. Python's `set()` treats `1` and `True` (and `0` and `False`) as one element, so the source keeps only one of them, while the model keeps `VInt(1)` and `VBool(true)` apart.
- `Formatter.UpscalingSection`: the `upscale_by` factor is carried as a value. Its float formatting is left out.
- `Formatter.SamplingSelection`: requires `start_at_step` to be an int wherever it is present, since the source compares it with `0`.
- The analyzer functions require every entry of the graph to be a JSON object. The source calls `.get` on each entry and would raise otherwise. The formatter's loops skip non-object entries, as the source does.
- Text handling covers ASCII only. There is no Unicode case folding, and `\s` is the ASCII whitespace class.
- `MetadataSearch.TermMatches`: only the plain substring mode is modelled, and the `use_regex=True` branch is left out.
- `MetadataSearch.MetadataSearchSorter.SearchMetadata` requires text checkpoint and LoRA names, since `' '.join` of them raises for every image. It also requires a prompt to be text when the search keeps its own field. That crash path is not modelled, and the source raises in fewer cases:
  - only when `.lower()` reaches a truthy non-text prompt, or exact mode's `' '.join` does;
  - a case-sensitive search of a list prompt tests membership instead;
  - the term loop stops at the first hit, so a later field may never be read.
- `MetadataSearch.MatchesCases`, `MetadataSearch.MatchSetSpec`, `MetadataSearch.MetadataSearchSorter.SearchAndSort` and `MetadataSearch.MetadataSearchSorter.SearchByPromptKeywords` carry the same precondition. The prompt-keyword search keeps both prompt fields. `MetadataSearch.MetadataSearchSorter.SearchSpecificLora` keeps neither, so it places no condition on the prompts.
- Python set iteration order is not modelled. `Analyzer.Dedup` keeps first occurrences, and `MetadataSearch.MetadataSearchSorter.Listing` returns the matches in an unspecified order.
- Walks, listings and the `_extract_all_metadata` results are inputs. `os.walk`, `glob`, `os.listdir` and the extractor run behind them are not modelled.
- File operations work on a set of existing paths. The model does not capture:
  - directories and `mkdir`;
  - `pathlib` normalisation beyond dropping empty and `.` components;
  - the contents of files;
  - any `shutil` failure other than a missing source or a copy onto itself.
- `ImageFlattener.FlattenImages`: `_remove_empty_dirs` is left out. Only the condition under which it runs is returned.
- `ColorSorter.SortByColor`: the dominant colour of each file is an input. `get_dominant_color` (PIL resizing and `Counter.most_common` over pixels), `rgb_to_hsv`, the `color_info.txt` report and the success-rate percentage are left out.
- `ColorSorter.CategorizeSpec`: the Euclidean distance `** 0.5` is a float in the source. The model compares squared integer distances, and `RootScanAgrees` shows that any exact square root selects the same category. Float rounding is not modelled.
- `FilenameCleanup.FilenameCleanup.CleanupDirectory`: the clock `int(time.time())` is a parameter. The outer `except` that returns `False` is left out, because its walk is an input here.
- `CheckpointSorter.CheckpointSorter.GroupByCheckpointAndLora`: the generation map and the `version_key` ordering are left out. They build an unused value and do not change the groups.
- `sort_by_checkpoint`, `_find_png_files` and `_create_metadata_file` of the checkpoint sorter and `_get_results`/`_log_summary` of the sorters are not part of this model. They are orchestration and reporting.
- `CheckpointSorter.CheckpointSorter.SortFilesToFolders`: every move is assumed to succeed. The source catches failed moves, and that path is not modelled.
- `CheckpointSorter.PlacedAt` and `CheckpointSorter.CheckpointSorter.SortFilesToFolders` test conflicts against the paths that existed plus every destination so far. A moved source is never freed, so a later file whose target is that old path is still renamed in the model, while the source would find the path free. This only matters when an output folder lies inside the input folder.
- `Paths.Stem`, `Paths.Suffix`, `CheckpointSorter.CleanCheckpointName`, `CheckpointSorter.CleanCheckpointNameOfPath`, `MetadataSearch.NameMatchesSpec`, `MetadataSearch.PngFilesSpec` and the other members built on `Paths` treat only `/` as a separator, as POSIX `pathlib` and `os.path` do. The program also targets Windows (`os.startfile` at main.py:170, sorters/checkpoint_sorter.py:516, sorters/metadata_search.py:506), where `\` separates too. There `Path("SDXL\\juggernaut.safetensors").stem` is `juggernaut`, but the model keeps the directory and cleans it to `SDXL_juggernaut`. The formatter's `Formatter.DisplayName` handles both separators, as its source does.
