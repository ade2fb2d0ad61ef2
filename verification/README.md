# A verified model of SNII

SNII is an inverted-index engine: an out-of-core writer, on-disk codecs, a reader that fetches as
little as it can, and query operators. This Dafny project models its algorithms and proves that
each fast form does what the simple one does.

`dafny verify dfyconfig.toml` checks everything.

| part | modules |
|---|---|
| shared types, byte streams, bits | `Common`, `Varint`, `ByteStreams`, `Pieces`, `BitStrings`, `IndexSort` |
| out-of-core build | `PostingPool`, `Postings`, `FlatPostings`, `TermChain`, `TermOrder`, `SpimiSpec`, `SpimiBuffer`, `RunMerge` |
| scoring | `Ranking`, `Wand`, `WandSafety`, `WandProfiles`, `ScoringQueries`, `LazyWand`, `BlockMax` |
| phrase, prefix, AND | `DocidSets`, `WindowDirectory`, `PositionalPostings`, `Conjunction`, `PostingCursor`, `PhraseMatch`, `PhraseQuery` |
| dictionary | `TermDict`, `DictEntries`, `DictBlocks`, `DictBlockReader`, `SampledIndex`, `Bloom`, `Dictionary`, `Wildcard` |
| posting codecs | `Pfor`, `PforRuns`, `FrqRegions`, `PrxWindows`, `PrxSizes`, `PrxFrames`, `WindowRows`, `FrqPrelude`, `FrqPreludeReader`, `WindowedLayout`, `WindowedWriter`, `WindowedReader`, `WindowedRoundTrip`, `SlimEntries`, `Crc32c`, `Crc32cCheck`, `FormatSamples` |
| all of it together | `DiskPostings`, `PostingLoader`, `DiskConjunction`, `SegmentWriter`, `SegmentFits`, `SegmentReader`, `TokenPostings`, `EndToEnd`, `IndexBuild` |
| I/O planning, parallel tokenizing | `RangeFetcher`, `CacheMeter`, `Tokenizer` |

The last theorems, `IndexBuild.IndexThenPhrase` and `IndexBuild.IndexThenWildcard`, run the whole
way: tokens go through the arena, spills and merge, are written as postings and dictionary blocks,
are looked up and decoded from the bytes, of every term but the rarest only in the windows that can
matter, and the query returns exactly the documents in which the phrase, or a term the pattern
matches, was fed.

Conventions. A method that reads bytes takes ghost arguments saying what the bytes were written
from; when they are given (`good`), the result is exact, and without them the method still handles
every malformed input. Hashing, decompression, the memory gate's verdicts and the block-cut
estimate are parameters over which everything is proved. Scores are reals.

## Findings

Three claims of the repository do not hold as stated. The code is kept as it is; each has an input
that breaks it and the exact condition under which it holds.

- Block-max WAND equals exhaustive scoring (core/src/query/scoring_query.cpp:667-681). The pivot and
  the stop test use the bound of each cursor's current window, so a later window with a higher bound
  can be skipped. `WandProfiles.RisingBoundLosesBest` is the input: one term, bounds 5, 1, 10.
  `WandProfiles.ExactIffNonRising`: the results agree for every query and posting if and only if no
  window bound rises (the window ending at docid 0 aside). A losing query scores positively wherever
  its bounds allow it. `WandProfiles.ExactIffNonRisingCrowded`: the condition is the same when every
  window must hold some number of documents, such as the writer's 256 or 1024.
- A build is byte-identical whatever the spill points (core/src/writer/spimi_term_buffer.cpp:176-181).
  A spill between two tokens of a term whose docid steps back leaves two runs that are concatenated in
  the wrong order. `SpimiSpec.AnyScheduleIff`: the stream is independent of the spills if and only if
  no term's docids step back.
- An arena cursor reports no more bytes after the last one, for any budget at or above the length
  (core/src/writer/compact_posting_pool.cpp:115-122). While the last slice has room it still reports
  one: `PostingPool.HasNextAfterLast`. `PostingPool.DrainWhile`: reading while it reports more gives
  exactly the content if and only if the budget is the length, or is larger and the last slice is full.

## Model

| member | source | states |
|---|---|---|
| PostingPool.CompactPostingPool.Reset | core/src/writer/compact_posting_pool.cpp:27-31 | An empty arena again. |
| PostingPool.CompactPostingPool.AllocRun | core/src/writer/compact_posting_pool.cpp:33-63 | A run starts at or after everything allocated, never straddles a block, and is refused exactly when its end would pass 32 bits. |
| PostingPool.CompactPostingPool.AllocSlice | core/src/writer/compact_posting_pool.cpp:65-72 | A fresh slice with a null forward link; bytes already allocated are untouched. |
| PostingPool.CompactPostingPool.StartChain | core/src/writer/compact_posting_pool.cpp:84-89 | A new empty chain apart from every stored one, all of which are still stored. |
| PostingPool.CompactPostingPool.Grow | core/src/writer/compact_posting_pool.cpp:91-106 | Linking a new slice keeps the chain's content and every other chain. |
| PostingPool.CompactPostingPool.AppendByte | core/src/writer/compact_posting_pool.cpp:91-106 | The chain's content grows by exactly this byte; every chain apart from it stays stored and apart. |
| PostingPool.TailBoundsLength | core/src/writer/spimi_term_buffer.cpp:326-342 | The write offset of a chain is at least its length, so it is budget enough for a cursor. |
| PostingPool.Cursor.HasNext | core/src/writer/compact_posting_pool.cpp:115-122 | True exactly when budget is left and the slice has room or a successor; while content is unread, exactly when budget is left. |
| PostingPool.Cursor.Next | core/src/writer/compact_posting_pool.cpp:124-148 | Yields the next unread byte and uses one unit of budget, across slices. |
| PostingPool.ReadBack | core/src/writer/compact_posting_pool.cpp:108-148 | Any budget at or above the length reads back exactly the appended bytes. |
| PostingPool.HasNextAfterLast | core/src/writer/compact_posting_pool.cpp:115-122 | After the last of one byte, a cursor with budget 2 still reports more. |
| PostingPool.DrainWhile | core/src/writer/compact_posting_pool.cpp:115-148 | Reading while the cursor reports more yields the budget's worth of payload; that is the content exactly when the budget is the length, or is larger and the last slice is full. |
| Varint.VarintRoundTrip | core/src/encoding/varint.cpp:14-41 | Decoding at an encoded 64-bit value returns it and ends right behind it, whatever surrounds it. |
| Varint.EncodedLength | core/src/encoding/varint.cpp:5-12 | A value below 128^i takes at most i bytes, any 64-bit value at most 10. |
| Varint.ZigzagRoundTrip | core/src/writer/spimi_term_buffer.cpp:158-168 | Signed docid deltas survive zigzag coding. |
| TermChain.DecodeChain | core/src/writer/spimi_term_buffer.cpp:342-397 | The chain's tagged varints decode to the arrays of the tokens grouped by document. |
| TermChain.PullPositions | core/src/writer/spimi_term_buffer.cpp:360-385 | A pull of n positions yields the positions of the next n tokens. |
| TermChain.PullAll | core/src/writer/spimi_term_buffer.cpp:342-397 | Pulls of any sizes summing to the total yield exactly the flat positions. |
| Postings.DrainedCanonical | core/src/writer/spimi_term_buffer.cpp:252-295 | Grouping, stable sort and coalescing give one entry per document, ascending, with its positions in arrival order, for any token order. |
| Postings.CanonicalUnique | core/src/writer/spimi_term_buffer.cpp:252-295 | That meaning determines the postings. |
| Postings.MergedCanonical | core/src/writer/spill_run_codec.cpp:367-415 | Concatenating the runs of a term whose docids never step back has the same meaning. |
| Postings.ScheduleFreeIff | core/src/writer/spill_run_codec.cpp:367-415 | For one term, every cut into runs merges to the same postings if and only if its docids never step back. |
| FlatPostings.ConcatRuns | core/src/writer/spill_run_codec.cpp:367-394 | The array form of concatenation with a shared boundary document folded. |
| FlatPostings.ConcatDocsFreqs | core/src/writer/spill_run_codec.cpp:399-415 | The same without positions. |
| FlatPostings.SortByDocid | core/src/writer/spimi_term_buffer.cpp:252-295 | The array form of stable sort and coalescing. |
| TermOrder.BuildRanks | core/src/writer/spimi_term_buffer.cpp:406-418 | The rank table orders a vocabulary of distinct strings bytewise. |
| TermOrder.SortByRank | core/src/writer/spimi_term_buffer.cpp:420-430 | The touched ids in dictionary order, each once. |
| TermOrder.LessMeans | core/src/writer/spimi_term_buffer.cpp:406-418 | One string is before another if and only if they agree on some first bytes and then it ends or has the smaller byte. |
| SpimiBuffer.SpimiTermBuffer.constructor | core/src/writer/spimi_term_buffer.cpp:49-73 | An empty buffer with a rank table for the vocabulary. |
| SpimiBuffer.SpimiTermBuffer.AddToken | core/src/writer/spimi_term_buffer.cpp:141-209 | The token is recorded whether or not the buffer spills. It ends its fill when the gate is over its cap or the arena has reached its stop, else the fill grows by it; the stop is out of reach until 21 blocks below the cap. An id outside the vocabulary fails the build. |
| SpimiBuffer.SpimiTermBuffer.Accumulate | core/src/writer/spimi_term_buffer.cpp:141-198 | The same for an accepted token; after a spill the arena is empty. |
| SpimiBuffer.SpimiTermBuffer.Record | core/src/writer/spimi_term_buffer.cpp:141-172 | The token joins its term's chain, every other chain is kept, and the arena grows by at most 21 blocks. |
| SpimiBuffer.SpimiTermBuffer.Spill | core/src/writer/spimi_term_buffer.cpp:490-513 | The live terms become one sorted run; nothing fed is lost. |
| SpimiBuffer.SpimiTermBuffer.DrainSorted | core/src/writer/spimi_term_buffer.cpp:442-488 | The live terms in dictionary order, each with its postings. |
| SpimiBuffer.ToPostings | core/src/writer/spimi_term_buffer.cpp:326-397 | A pump is handed out exactly for an in-order term of at least 65536 tokens in at least 512 documents, where streaming is allowed: then docids and frequencies, and the pump at the first token. Otherwise the complete postings. |
| SpimiBuffer.SpimiTermBuffer.ForEachTermSorted | core/src/writer/spimi_term_buffer.cpp:515-565 | The first drain yields the stream of the closed fills and the open one, whichever path it takes; for an in-order feed that is the no-spill stream; a second drain fails. |
| SpimiSpec.StreamAnySchedule | core/src/writer/spimi_term_buffer.cpp:141-197 | For an in-order feed, the merged stream is the same for every spill schedule, spills inside a document included. |
| SpimiSpec.AnyScheduleIff | core/src/writer/spimi_term_buffer.cpp:176-181 | The stream is independent of the schedule if and only if no term's docids step back. |
| SpimiSpec.CutBehind | core/src/writer/spimi_term_buffer.cpp:173-197 | Under any verdicts a fill is closed behind a token if and only if its verdict says so, and later tokens do not change it. |
| SpimiSpec.NoCuts | core/src/writer/spimi_term_buffer.cpp:515-540 | Without a verdict the whole feed is one fill. |
| SpimiSpec.StreamMeaning | core/src/writer/spimi_term_buffer.cpp:442-565 | Terms come in lexicographic order, each once, exactly those fed, with one record per document: token count and positions in arrival order. |
| RunMerge.RunPump.Pull | core/src/writer/spill_run_codec.cpp:515-571 | A pull yields the next positions across the parked readers, and zeros only past their end. |
| RunMerge.MergeTerm | core/src/writer/spill_run_codec.cpp:470-571 | One term's runs folded; a pump only with at least the slim threshold's documents, holding exactly the folded positions. |
| RunMerge.MergeStep | core/src/writer/spill_run_codec.cpp:427-595 | One heap round emits the next term of the stream and leaves every reader at its next term. |
| RunMerge.MergeRuns | core/src/writer/spill_run_codec.cpp:427-595 | The k-way merge of the runs is the stream of the fills. |
| Ranking.TopK.Offer | core/src/query/scoring_query.cpp:230-259 | A full heap takes a document that scores more than the worst kept, or the same with a smaller docid, and drops the worst; one with room takes any. The order stays best first. |
| Ranking.TopKBestFirst | core/src/query/scoring_query.cpp:230-272 | The top k spelled out: scores fall, equal scores by rising docid; a document left out of a full result scores less than the last one kept, or the same with a larger docid. |
| Ranking.TopKUnique | core/src/query/scoring_query.cpp:230-272 | The top k under that order is unique, ties included. |
| ScoringQueries.AccumulateScores | core/src/query/scoring_query.cpp:289-315 | The map of every document's total score. |
| ScoringQueries.Exhaustive | core/src/query/scoring_query.cpp:289-315 | Exhaustive scoring returns the top k of the true totals: higher scores first, then smaller docids, and nothing better is left out. |
| ScoringQueries.ScoringQueryWand | core/src/query/scoring_query.cpp:638-709 | The eager loop's moves, final cursors and result; when no bound rises, the top k of the true totals in that same order. |
| WandSafety.WandIsTopK | core/src/query/scoring_query.cpp:638-709 | With valid, non-rising window bounds WAND returns the exhaustive top k, ties included. |
| WandProfiles.RisingBoundLosesBest | core/src/query/scoring_query.cpp:667-681 | Window bounds 5, 1, 10 make WAND miss the best document. |
| WandProfiles.ExactIffNonRising | core/src/query/scoring_query.cpp:667-681 | For a profile of window bounds, WAND is exact in every query if and only if no bound rises. |
| WandProfiles.ExactIffNonRisingCrowded | core/src/query/scoring_query.cpp:667-681 | The same condition, over queries whose windows each hold at least any given number of documents. |
| WandProfiles.CrowdedDipLosesBest | core/src/query/scoring_query.cpp:667-681 | Bounds 5, 1, 10 lose the best document whatever number of documents above one fills each window. |
| Wand.CourseDecides | core/src/query/scoring_query.cpp:638-709 | The result of a run is its scored documents offered in order. |
| LazyWand.LazyCurrentDoc | core/src/query/scoring_query.cpp:402-414 | Reads the current docid, fetching at most the window under the cursor. |
| LazyWand.LazySkipTo | core/src/query/scoring_query.cpp:416-430 | Lands where the per-document walk lands, fetching the landing window only. |
| LazyWand.SelectiveSortByDoc | core/src/query/scoring_query.cpp:517-535 | The eager sort's order; only a reordering of the same cursors. |
| LazyWand.SelectiveScorePivot | core/src/query/scoring_query.cpp:558-572 | The eager score and advance. |
| LazyWand.SelectiveAdvanceLagging | core/src/query/scoring_query.cpp:574-587 | The eager skip of the first lagging cursor. |
| LazyWand.WandSelective | core/src/query/scoring_query.cpp:589-636 | For arbitrary window bounds the eager run, move by move: same pivots, same documents and scores offered in the same order, same final places, same result; the final cursors are the query's own, each once, and each of their windows is fetched at most once. |
| BlockMax.ScoreMonotone | core/src/query/bm25_scorer.cpp:27-41 | More occurrences in a shorter document never score less. |
| BlockMax.Bm25Value | core/src/query/bm25_scorer.cpp:27-35 | The score times tf·avgdl + k1·((1-b)·avgdl + b·dl) is idf·tf·(k1+1)·avgdl, where dl is the norm, or 1 for norm 0. |
| BlockMax.NoLengthAtZero | core/src/query/bm25_scorer.cpp:27-35 | With b = 0 the document's length does not matter. |
| BlockMax.AverageScoresIdf | core/src/query/bm25_scorer.cpp:27-35 | One occurrence in a document of average length scores the idf. |
| BlockMax.SampleScores | core/src/query/bm25_scorer.cpp:27-35 | Two documents by value, 44/41 and 44/35: the shorter one with one occurrence is ahead of the longer one with two. |
| BlockMax.WindowMaxNorm | core/src/writer/logical_index_writer.cpp:144-152 | The recorded norm decodes to at most every document's length; it is 0 or some document's own, and 0 only when there are no norms, some document's norm is 0, or none is below 255. |
| BlockMax.WindowedCursorValid | core/src/query/scoring_query.cpp:93-183 | A cursor built from recorded windows bounds every score it covers. |
| BlockMax.SingleWindow | core/src/query/scoring_query.cpp:113-121 | A slim term's single window, bounded by its best score, always meets WAND's condition. |
| DocidSets.IntersectSorted | core/src/query/docid_set_ops.cpp:10-16 | The ascending intersection. |
| DocidSets.UnionSortedInto | core/src/query/docid_set_ops.cpp:18-24 | The ascending union of two lists. |
| DocidSets.UnionSortedMany | core/src/query/docid_set_ops.cpp:26-75 | The heap-driven union of many lists: ascending, each docid once. |
| WindowDirectory.BuildDirectory | core/src/format/frq_prelude.cpp:85-119 | Both levels record absolute last docids. |
| WindowDirectory.LocateWindow | core/src/format/frq_prelude.cpp:403-427 | Finds the first window whose last docid reaches the target, or none if all end before it. |
| Conjunction.SelectCoveringWindows | core/src/query/phrase_query.cpp:191-208 | The windows covering the candidates: every candidate's, and no other, ascending. |
| Conjunction.SelectionKeeps | core/src/query/phrase_query.cpp:191-283 | The selected windows say of a candidate exactly what the posting says. |
| Conjunction.BuildConjunction | core/src/query/phrase_query.cpp:388-423 | The ascending documents that hold every term, though later terms are read only in covering windows. |
| PostingCursor.Cursor.Seek | core/src/query/phrase_query.cpp:332-343 | The forward-only cursor lands on the target whenever it is there. |
| PostingCursor.Cursor.Positions | core/src/query/phrase_query.cpp:345-365 | The positions of the document under the cursor, each chunk decoded at most once in a row. |
| PhraseMatch.SpansMatch | core/src/query/phrase_query.cpp:425-469 | True exactly when some start aligns all spans. |
| PhraseMatch.EmitPhraseStreaming | core/src/query/phrase_query.cpp:428-469 | Of the candidates, exactly those in which the phrase occurs. |
| PhraseMatch.CollectExpectedTailPositions | core/src/query/phrase_query.cpp:502-545 | For each candidate, exactly the positions right after an occurrence. |
| PhraseMatch.CollectTailMatches | core/src/query/phrase_query.cpp:576-614 | The documents where a tail term stands at an expected position. |
| PhraseQuery.ExecutePhrasePlans | core/src/query/phrase_query.cpp:471-500 | The ascending documents d with some p such that p + k is a position of term k in d for all k. |
| PhraseQuery.PhraseQuery | core/src/query/phrase_query.cpp:618-636 | The same from terms, including the empty phrase, missing terms and an index without positions. |
| PhraseQuery.BooleanAnd | core/src/query/phrase_query.cpp:697-720 | The ascending documents that hold every term. |
| PhraseQuery.PrefixQuery | core/src/query/prefix_query.cpp:27-40 | The documents of every term with the prefix. |
| PhraseQuery.TailMatches | core/src/query/phrase_query.cpp:547-614 | One tail term against the expected positions is the phrase with that term. |
| PhraseQuery.PhrasePrefixQuery | core/src/query/phrase_query.cpp:643-690 | The union, over every dictionary term with the last prefix, of the phrase completed by it, though the fixed terms are matched once. |
| Wildcard.MatchesStar | core/src/query/wildcard_query.cpp:24-44 | The table's recurrence for a star, against the meaning of patterns. |
| Wildcard.WildcardMatch | core/src/query/wildcard_query.cpp:24-44 | The two-row table decides whether the text is spelled by the pattern. |
| Wildcard.PlainMatches | core/src/query/wildcard_query.cpp:15-44 | A pattern without the bytes 0x2A and 0x3F matches only itself. |
| Wildcard.AsteriskMatches | core/src/query/wildcard_query.cpp:24-44 | A plain pattern followed by 0x2A matches exactly the texts it is a prefix of. |
| Wildcard.QuestionMatches | core/src/query/wildcard_query.cpp:24-44 | A plain pattern followed by 0x3F matches exactly the texts one byte longer that it is a prefix of. |
| Wildcard.MatchCarriesPrefix | core/src/query/wildcard_query.cpp:15-22 | Every match carries the literal prefix. |
| Wildcard.PrefixThenFilter | core/src/query/wildcard_query.cpp:63-70 | Enumerating the prefix and filtering is filtering the whole dictionary. |
| Wildcard.WildcardQuery | core/src/query/wildcard_query.cpp:63-70 | The documents of every term the pattern matches. |
| DictEntries.TermKeyRoundTrip | core/src/format/dict_entry.cpp:39-45 | A front-coded key decodes against its predecessor. |
| DictEntries.RegionsRoundTrip | core/src/format/dict_entry.cpp:55-75 | Region metadata decodes, with and without a stored checksum. |
| DictEntries.EntryRoundTrip | core/src/format/dict_entry.cpp:233-271 | An entry of either kind decodes to itself and consumes exactly its bytes. |
| DictBlocks.Finish | core/src/format/dict_block.cpp:66-97 | The block's bytes: header, entries restarting at anchors, anchor table, checksum. |
| DictBlockReader.Open | core/src/format/dict_block.cpp:131-202 | Opening what was written gives a reader of the same entries, offsets and anchors. |
| DictBlockReader.LocateAnchor | core/src/format/dict_block.cpp:204-221 | The last anchor at or before the target, none exactly when the target comes first. |
| DictBlockReader.FindTerm | core/src/format/dict_block.cpp:252-296 | Anchor search and scan find what a linear search of the entries finds. |
| DictBlockReader.DecodeAll | core/src/format/dict_block.cpp:223-250 | All entries, in order. |
| SampledIndex.Parse | core/src/format/sampled_term_index.cpp:71-108 | Restores the sampled terms. |
| SampledIndex.Locate | core/src/format/sampled_term_index.cpp:124-152 | The last sample at or before the target, none exactly when the target comes first. |
| Bloom.BsbfBuilder.Insert | core/src/format/bsbf.cpp:55-58 | The hash joins the inserted set and no bit is cleared. |
| Bloom.BsbfBuilder.MaybeContains | core/src/format/bsbf.cpp:60-66 | Exactly the eight-bit test of the hash's block; never false for an inserted hash. |
| Bloom.BitsByValue | core/src/format/bsbf.cpp:15-45 | Each of the eight bits is the top five of the low hash word times the standard's salt for it, every salt by value. |
| Dictionary.BuildIndex | core/src/writer/logical_index_writer.cpp:482-571 | Blocks, samples and filter together hold the terms of the blocks. |
| Dictionary.OneBlockDecides | core/src/format/sampled_term_index.cpp:124-152 | When the samples bracket a term, only that block can hold it. |
| Dictionary.Lookup | core/src/reader/logical_index_reader.cpp:98-165 | For ascending terms cut into blocks anywhere, finds a term if and only if it is there, with its stored fields. |
| Dictionary.PrefixTerms | core/src/reader/logical_index_reader.cpp:167-221 | Exactly the terms with the prefix, in order. |
| Pfor.ChooseWidth | core/src/encoding/pfor.cpp:34-50 | The least-cost width among 0 to 32, the narrowest of equals. |
| Pfor.Bitpack | core/src/encoding/pfor.cpp:54-68 | Just enough bytes, beginning with the values' low bits end to end. |
| Pfor.UnpackOne | core/src/encoding/pfor.cpp:70-110 | The 64-bit load and the zero-padded tail read the same value. |
| Pfor.PforEncode | core/src/encoding/pfor.cpp:115-134 | The byte form of the values: width, exceptions, packed values. |
| Pfor.PforDecode | core/src/encoding/pfor.cpp:136-152 | Restores every 32-bit array and consumes exactly the encoded bytes. |
| PforRuns.DecodeRuns | core/src/format/frq_pod.cpp:29-45 | Restores an array of any length from its runs. |
| FrqRegions.BuildDdRegion | core/src/format/frq_pod.cpp:48-137 | The docids as deltas from the base; refused exactly when they do not climb from it. |
| FrqRegions.DecodeDdRegion | core/src/format/frq_pod.cpp:92-171 | Restores the docids, and fails exactly when a cap on documents or bytes is passed. |
| FrqRegions.DecodeFreqRegion | core/src/format/frq_pod.cpp:173-192 | Restores the frequencies, and fails exactly past the byte cap. |
| PrxWindows.EncodePacked | core/src/format/prx_pod.cpp:119-142 | The packed payload; refused exactly when frequencies do not part the positions or a document's positions step back. |
| PrxWindows.DecodePacked | core/src/format/prx_pod.cpp:156-192 | Restores the position lists, and fails exactly past a cap. |
| PrxWindows.DecodePackedCsr | core/src/format/prx_pod.cpp:235-271 | The same lists in one flat array cut by offsets. |
| PrxFrames.EncodeRaw | core/src/format/prx_pod.cpp:69-88 | The plain payload, refused exactly when the packed one is. |
| PrxFrames.DecodeRaw | core/src/format/prx_pod.cpp:205-230 | Restores the lists from the plain payload. |
| PrxFrames.DecodeRawCsr | core/src/format/prx_pod.cpp:274-305 | The flat form, and fails exactly past the position cap. |
| PrxFrames.BuildPrxWindow | core/src/format/prx_pod.cpp:391-409 | A framed window in either codec. |
| PrxFrames.ReadPrxWindow | core/src/format/prx_pod.cpp:339-429 | Restores the lists of a framed window, and fails exactly past a cap. |
| PrxFrames.ReadPrxWindowCsr | core/src/format/prx_pod.cpp:431-449 | The flat form of a framed window of either codec. |
| WindowRows.DecodeRow | core/src/format/frq_prelude.cpp:54-277 | A directory row decodes to itself, based on the previous window's last docid. |
| FrqPrelude.BuildPrelude | core/src/format/frq_prelude.cpp:121-141 | The directory's bytes; refused exactly when the grouping is zero, windows are too many, or last docids step back. |
| FrqPreludeReader.ValidateLayout | core/src/format/frq_prelude.cpp:327-355 | Accepts exactly the windows whose regions tile their blocks. |
| FrqPreludeReader.Open | core/src/format/frq_prelude.cpp:359-392 | Restores the windows, the super-block docids and the block lengths. |
| FrqPreludeReader.OpenedSearchable | core/src/format/frq_prelude.cpp:403-427 | An opened directory is one on which the two-level search is correct. |
| WindowedWriter.FirstPass | core/src/writer/logical_index_writer.cpp:256-299 | Extents, peaks and streamed positions of every window; refused exactly when some document's positions step back. |
| WindowedWriter.SecondPass | core/src/writer/logical_index_writer.cpp:300-316 | Docid and frequency regions grouped into blocks, leaving the first pass's fields as they were. |
| WindowedWriter.WindowsUnderCap | core/src/format/frq_prelude.cpp:13-16 | A term never has more windows than the directory allows. |
| WindowedWriter.ValidateTerm | core/src/writer/logical_index_writer.cpp:339-359 | Accepts exactly matching lengths, parted positions and strictly ascending docids. |
| WindowedWriter.BuildWindowedEntry | core/src/writer/logical_index_writer.cpp:368-406 | Everything is appended behind what the region holds, and the locator leads to it. |
| WindowedReader.ReadWindowedPosting | core/src/reader/windowed_posting.cpp:220-258 | Restores docids always, frequencies and positions as asked; fails exactly when positions are asked of an index without them or a window passes a cap. |
| PforRuns.CodedLength | core/src/encoding/pfor.cpp:34-50 | Least-cost widths bound the coded size: 899 bytes a run of 256 and seven more per value above 24 bits. |
| PrxSizes.PackedWithinCap | core/src/format/prx_pod.cpp:336-350 | A window of at most 2^26 positions in at most 1024 documents is coded within the reader's 2^28 bytes, so the cap on positions is the only one that binds. |
| WindowedRoundTrip.CapDecides | core/src/format/prx_pod.cpp:233-262 | The reader takes a written window exactly when it holds at most 2^26 positions. |
| WindowedRoundTrip.WriteThenRead | core/src/reader/windowed_posting.cpp:159-258 | Writing then reading is the identity, whatever lies around the posting in the file; positions beyond the reader's cap are refused, in any file below 2^32 bytes, and nothing else is. |
| WindowedRoundTrip.WindowRange | core/src/reader/windowed_posting.cpp:124-157 | The ranges of one window hold exactly that window's bytes; any other index is refused. |
| WindowedRoundTrip.LocatedWindow | core/src/format/frq_prelude.cpp:403-427 | A docid is in the posting exactly when it is in the window the directory points at. |
| SlimEntries.BuildSlimEntry | core/src/writer/logical_index_writer.cpp:415-452 | Inline exactly when the docid and frequency bytes are at most 256, else behind the region; refused exactly when positions step back. |
| SlimEntries.BuildEntry | core/src/writer/logical_index_writer.cpp:460-471 | Windowed exactly from 512 documents on; a posting that comes with a pump and has positions is refused below it, so it only reaches the windowed form. |
| FormatSamples.VarintDigits | core/src/encoding/varint.cpp:5-12 | Byte i of a varint holds digit i to the base 128, and its high bit says whether more follow. |
| FormatSamples.NumberSample | core/include/snii/encoding/varint.h:19-25 | 300 is AC 02; fixed words are little-endian; zigzag counts 0, -1, 1, -2. |
| FormatSamples.ChainSample | core/src/writer/spimi_term_buffer.cpp:141-168 | The chain bytes of three tokens in two documents, the second behind the first. |
| FormatSamples.TermKeySample | core/src/format/dict_entry.cpp:39-45 | "apply" behind "apple" is 04 01 79. |
| FormatSamples.WindowedEntrySample | core/src/format/dict_entry.cpp:12-115 | The bytes of one windowed entry, field by field. |
| FormatSamples.InlineEntrySample | core/src/format/dict_entry.cpp:91-115 | The bytes of one inline entry. |
| FormatSamples.SampledSample | core/src/format/sampled_term_index.cpp:21-66 | The bytes of a sampled index of two terms. |
| FormatSamples.ExceptionSample | core/src/encoding/pfor.cpp:115-134 | An exception is its gap and its value. |
| FormatSamples.PackedSample | core/src/encoding/pfor.cpp:54-68 | Four two-bit values in one byte, the first lowest. |
| FormatSamples.RowSample | core/src/format/frq_prelude.cpp:54-83 | The bytes of one directory row. |
| FormatSamples.FrameSample | core/src/format/prx_pod.cpp:195-323 | A frame is codec, length, payload and the checksum of the three. |
| PostingLoader.LoadSlim | core/src/query/scoring_query.cpp:143-162 | Restores a slim or inline posting within the caps. |
| PostingLoader.LoadPosting | core/src/query/phrase_query.cpp:96-120 | Whichever way an entry was written, reading it gives the posting the phrase operators expect. |
| DiskPostings.DiskPostingValid | core/src/query/phrase_query.cpp:242-283 | What was written is a posting the phrase operators accept. |
| DiskPostings.DiskPostingMeans | core/src/query/phrase_query.cpp:242-283 | It holds each of the term's documents with that document's positions. |
| DiskPostings.DiskCursorValid | core/src/query/scoring_query.cpp:93-109 | The peaks the writer recorded bound every score, so the WAND theorems apply to a written posting. |
| SegmentWriter.WriteTerms | core/src/writer/logical_index_writer.cpp:518-571 | Every term's entry leads to its posting, for any points at which blocks are closed; refused exactly when some term is malformed. |
| SegmentFits.SegmentCarried | core/src/format/dict_entry.cpp:103-113 | Written entries always fit the dictionary's formats while blocks stay below 2^32 bytes. |
| SegmentReader.ResolveTerm | core/src/query/phrase_query.cpp:122-149 | Lookup and posting read give what the list of terms says, or none. |
| DiskConjunction.ReadWindows | core/src/query/phrase_query.cpp:242-280 | The given windows, fetched by their own ranges and no other, hold the posting's documents in those windows; positions only when needed. |
| DiskConjunction.JoinPlans | core/src/query/phrase_query.cpp:388-423 | From the file, the documents that hold every term; terms go rarest first, and each window read of a later one covers a document that holds all rarer ones. |
| SegmentReader.PlanTerms | core/src/query/phrase_query.cpp:96-189 | Slim postings read, windowed directories opened; none when a term is missing. |
| SegmentReader.PhraseOnDisk | core/src/query/phrase_query.cpp:618-641 | The phrase answer from the dictionary's and postings' bytes, reading windows selectively. |
| SegmentReader.BooleanAndOnDisk | core/src/query/phrase_query.cpp:697-720 | The AND answer from the bytes, without fetching any positions. |
| SegmentReader.PhrasePrefixOnDisk | core/src/query/phrase_query.cpp:643-690 | The phrase-prefix answer from the bytes. |
| SegmentReader.PrefixOnDisk | core/src/query/prefix_query.cpp:27-40 | The prefix answer from the bytes. |
| TokenPostings.OrderlySound | core/src/writer/logical_index_writer.cpp:339-359 | The postings of an orderly feed within the reader's cap per window pass every check of the writer. |
| EndToEnd.PhraseMeans | core/src/query/phrase_query.cpp:618-641 | A phrase matches in the index exactly where it was fed. |
| SegmentReader.WildcardOnDisk | core/src/query/wildcard_query.cpp:63-70 | The wildcard answer from the bytes, reading only the postings of matching terms. |
| EndToEnd.WildcardMeans | core/src/query/wildcard_query.cpp:63-70 | A wildcard matches in the index exactly the documents in which a matching term was fed. |
| IndexBuild.IndexThenWildcard | core/src/query/wildcard_query.cpp:63-70 | From tokens to bytes to answer: exactly the documents in which a term the pattern matches was fed. |
| IndexBuild.Accumulated | core/src/writer/spimi_term_buffer.cpp:141-565 | For any verdicts of the memory gate, feeding and draining gives the stream of the feed cut behind every token with a verdict and, else, only behind a fill of at least 5462 tokens, where the arena may be full; the no-spill stream when no term's docids step back. It fails exactly when an id is outside the vocabulary. |
| IndexBuild.IndexThenPhrase | core/src/query/phrase_query.cpp:618-641 | From tokens to bytes to answer: the documents returned are exactly those in which the phrase was fed. |
| Crc32c.MakeSlice8Table | core/src/encoding/crc32c.cpp:23-40 | Column s of the table holds each byte after 8(s+1) steps of the register. |
| Crc32c.FoldLanes | core/src/encoding/crc32c.cpp:48-63 | Four table lookups, one per byte of a word, are the register steps of that word. |
| Crc32c.FeedEight | core/src/encoding/crc32c.cpp:48-63 | Feeding eight bytes is 64 register steps of the first packed word, the register folded in, and 32 of the second. |
| Crc32c.Slice8 | core/src/encoding/crc32c.cpp:48-82 | Slice-by-8 equals the bit-at-a-time register for every input and start. |
| Crc32c.Crc32cExtend | core/src/encoding/crc32c.cpp:99-111 | The inverted form of the same. |
| Crc32c.ExtendConcat | core/src/encoding/crc32c.cpp:99-111 | Extending over two pieces in turn is one pass over both. |
| Crc32cCheck.PolyExponents | core/src/encoding/crc32c.cpp:16-17 | Bit i of the polynomial is set exactly when 31 - i is an exponent of Castagnoli's polynomial, listed. |
| Crc32cCheck.CheckValue | core/src/encoding/crc32c.cpp:99-111 | The checksum of the ASCII digits 1 to 9 is 0xE3069283. |
| RangeFetcher.BatchRangeFetcher.Fetch | core/src/io/batch_range_fetcher.cpp:40-74 | Succeeds exactly when every request is in bounds. Physical reads then cover all requests and lie more than the gap apart; each begins and ends where one of its own requests does, and every byte of it is asked for or less than the gap behind the end of one of its requests. |
| RangeFetcher.NextStartsNear | core/src/io/batch_range_fetcher.cpp:52-68 | In such a read every request but those at its start begins at most the gap behind the end of one that begins before it. |
| RangeFetcher.BatchRangeFetcher.Get | core/src/io/batch_range_fetcher.cpp:76-80 | Every handle returns exactly its bytes of the file. |
| CacheMeter.MeteredFileReader.AccountBlocks | core/src/io/metered_file_reader.cpp:39-62 | Missing blocks become resident, one range request per run of them. |
| CacheMeter.TouchedIff | core/src/io/metered_file_reader.cpp:8-14 | A block is touched if and only if some byte of the range lies in it. |
| CacheMeter.RunsAre | core/src/io/metered_file_reader.cpp:39-62 | The runs counted are the blocks missed whose predecessor is not. |
| CacheMeter.BytesOfAll | core/src/io/metered_file_reader.cpp:39-62 | A file's blocks, the short last one included, add up to its length. |
| CacheMeter.MeteredFileReader.ReadAt | core/src/io/metered_file_reader.cpp:64-74 | One range accounted, or refused with nothing changed. |
| CacheMeter.MeteredFileReader.ReadBatch | core/src/io/metered_file_reader.cpp:76-117 | A batch accounted as the union of its blocks in at most one round. |
| CacheMeter.BatchNoWorse | core/src/io/metered_file_reader.cpp:76-117 | From any state, a batch needs no more range requests and no more rounds than its ranges one by one. |
| CacheMeter.CompareBatch | core/src/io/metered_file_reader.cpp:39-117 | Two readers in the same state end with the same blocks and bytes, one by a batch and one serially. |
| Tokenizer.TokenizeShard | bench/parallel_tokenizer.cpp:34-53 | A shard's first-occurrence vocabulary and ids. |
| Tokenizer.VocabJoin | bench/parallel_tokenizer.cpp:80-110 | Merging a shard's vocabulary is continuing the sequential pass. |
| Tokenizer.MergeShard | bench/parallel_tokenizer.cpp:80-110 | Remapped ids and merged vocabulary are those of the documents so far. |
| Tokenizer.TokenizeCorpus | bench/parallel_tokenizer.cpp:57-115 | For every thread count, the vocabulary and ids of one sequential pass; refused exactly past 32-bit counts. |

## Left out

- S3, local files, temporary directories and descriptors: a file is a byte sequence; run files are sequences of entries read back faithfully, without their varint framing and raw arrays.
- Floating point: scores and norms are reals, the idf is any non-negative parameter; rounding and `std::log` are not modelled.
- zstd: writing is raw or packed; a reader meeting a compressed region calls an arbitrary decompression function. Dictionary blocks are kept uncompressed.
- `std::sort` on equal keys: the two WAND sorts share one fixed stable order; the document-frequency order of a conjunction is any order by frequency.
- The accumulator's slot pool and free list: live terms are a map, so slot reuse is not modelled. Owned-vocabulary interning by string is not modelled.
- SpimiBuffer.SpimiTermBuffer.AddToken: after an out-of-range id the source goes on filling the arena without spilling; here later tokens are dropped. The drain fails either way.
- IndexBuild.IndexThenPhrase: for feeds whose windows stay within the reader's 2^26 positions; a larger window is written and then refused on reading, which is WindowedRoundTrip.WriteThenRead.
- IndexBuild.IndexThenWildcard: the same.
- PhraseQuery.PhrasePrefixQuery: stated over the dictionary as a list of terms with postings; its form on the bytes is SegmentReader.PhrasePrefixOnDisk, not carried on to the token feed.
- FrqRegions.BuildDdRegion: writes the region as it is; the compressed form of a long region is not written.
- PrxFrames.BuildPrxWindow: writes the plain or the packed form; the compressed form is not written.
- WindowedWriter.FirstPass: takes positions from the flat array; that pulling them window by window yields the same array is SpimiBuffer.ToPostings with TermChain.PullAll and RunMerge.RunPump.Pull.
- DiskConjunction.JoinPlans: fetches one range at a time, where the source coalesces neighbours (RangeFetcher.BatchRangeFetcher.Fetch), and decodes a fetched window's positions at once, where the source waits until a candidate asks for them.
- PostingCursor.Cursor.Positions: a chunk's positions are decoded lists; their byte form is PrxFrames.ReadPrxWindowCsr, stated with the same cut-by-offsets predicate.
- Windows without documents, and the maximum docid: windows are non-empty and docids lie below the sentinel.
- 64-bit wrap-around of corrupted lengths in a directory: sums are unbounded and compared with the buffer's size.
- Bloom words are sets of bits; the filter's serialization, its sizing and the XXH64 hash are not modelled, nor the AVX2 kernels and the SSE4.2 checksum.
- The tail word of bit unpacking is accumulated from its last byte to its first, where the source runs upward.
- The estimated size that closes a dictionary block: any function of the entries.
- Tokenization of text: documents are lists of terms. Threads run one after the other.
- The keyword corpus, memory reporting, profiling, the null bitmap, bootstrap header, tail pointer, stats block, norms section and per-index framing: straight-line code or foreign libraries.
- `regexp_query`: rests on a foreign regular-expression library.
