# Substreams indexer loop and framework native registration, in Dafny

This project models two pieces of the Aptos code base and proves properties
of each model.

**`SfIndexer`** (`sf_indexer.dfy`) models the entry point of the Substreams
indexer (`aptos-sf-indexer`):
- It requires `DATABASE_URL`, optionally runs migrations, and chooses the API
  token.
- It reads the package and creates the endpoint.
- It takes the start height from the database, or 0 when none is stored.
- It opens one stream over the window `[start, start + 500)`.
- It then walks the stream's items with a local `block_height` counter:
  - failed items and non-block responses are skipped;
  - each new block goes to the block-output processor, but only when the
    module is `block_to_block_output`;
  - the counter goes up by one on each success;
  - the first processing error panics.

The loop is a method with a `while` loop over the stream's items. It is proved
against `ValidTrace`, a declarative description of the calls and final height
the loop must produce. The lemmas show:
- that description is unique;
- how it grows by one item;
- the height equals the start plus the number of accepted blocks;
- calls are in stream order at consecutive heights;
- an abort ignores every later item;
- any other module name never processes anything.

**`Natives`** (`natives.dfy`) models the framework's native-function
registration:
- the two native error codes;
- the gas parameter structs, and `GasParameters::zeros`, the schedule whose
  costs are all zero;
- `all_natives`: each module's natives are tagged with the module name,
  concatenated in the fixed module order, and placed in a table at the
  framework address;
- `patch_table_module`: renames the module of every table entry to `table`.

The foreign collaborators are inputs. These are the database, the package
file, the gRPC endpoint, the stream, the block processor and each module's
`make_all`. An item stream is a sequence. The processor's answer for each
stream position is a sequence of results. `make_all` is a function of the
module's own gas parameters.

## Model

| member | source | states |
|---|---|---|
| SfIndexer.SelectToken | ecosystem/sf-indexer/aptos-sf-indexer/src/main.rs:66-70 | a token is chosen exactly when the variable is set and non-empty, and it is then the variable's value |
| SfIndexer.OpenStream | ecosystem/sf-indexer/aptos-sf-indexer/src/main.rs:81-88 | the first request has no cursor, subscribes the given module, and covers the window from the start height to 500 above it |
| SfIndexer.ConsumeStream | ecosystem/sf-indexer/aptos-sf-indexer/src/main.rs:90-130 | the loop's calls and final height satisfy ValidTrace: the eligible items up to where it stopped are processed in order, the k-th at start + k; every call but an aborting last one succeeded; an abort happens at the failing item; the height counts the accepted blocks |
| SfIndexer.RunIndexer | ecosystem/sf-indexer/aptos-sf-indexer/src/main.rs:49-133 | a missing DATABASE_URL, an unreadable package and a refused endpoint each give their own exit, exactly when they occur and in that order; the package and endpoint errors record that migrations ran unless skipped; otherwise migrations run unless skipped, the token rule holds, the stream starts at the stored height or 0 with window 500, and the loop's trace is valid; main returns `Ok(())` exactly when the three startup steps succeed and no handled block fails |
| SfIndexer.ReturnsOk | ecosystem/sf-indexer/aptos-sf-indexer/src/main.rs:91-132 | main's `Ok(())`: the run reached the loop and the stream ended; RunIndexer states exactly when this happens |
| SfIndexer.CallEvents | ecosystem/sf-indexer/aptos-sf-indexer/src/main.rs:105-111 | the list of stream positions has one entry per processor call, namely that call's position |
| SfIndexer.EligiblePrefix | ecosystem/sf-indexer/aptos-sf-indexer/src/main.rs:91-98 | the blocks eligible among the first a items are a prefix of those eligible among the first b items, for a <= b |
| SfIndexer.EligibleSound | ecosystem/sf-indexer/aptos-sf-indexer/src/main.rs:98-104 | every eligible position holds a new block of the block-output module, and positions strictly increase |
| SfIndexer.EligibleComplete | ecosystem/sf-indexer/aptos-sf-indexer/src/main.rs:98-104 | every new block of the block-output module among the first n items is eligible |
| SfIndexer.AppendKeepsEligible | ecosystem/sf-indexer/aptos-sf-indexer/src/main.rs:91-98 | an item appended to the stream does not change what was eligible before it |
| SfIndexer.EligibleReadsPrefix | ecosystem/sf-indexer/aptos-sf-indexer/src/main.rs:91-98 | eligibility among the first n items depends only on those n items |
| SfIndexer.CallsDetermined | ecosystem/sf-indexer/aptos-sf-indexer/src/main.rs:105-117 | two call lists with the same positions, both at consecutive heights from the same start, are equal |
| SfIndexer.StopDetermined | ecosystem/sf-indexer/aptos-sf-indexer/src/main.rs:114-124 | two valid traces of the same run end the same way and process the same positions |
| SfIndexer.ValidTraceUnique | ecosystem/sf-indexer/aptos-sf-indexer/src/main.rs:90-130 | the stream and the processor's answers determine the loop's outcome: two valid traces are equal |
| SfIndexer.SkippedEventChangesNothing | ecosystem/sf-indexer/aptos-sf-indexer/src/main.rs:97-98 | a failed item, a non-block response, or a block of another module leaves the trace as it is |
| SfIndexer.ProcessedBlockAdvancesByOne | ecosystem/sf-indexer/aptos-sf-indexer/src/main.rs:104-117 | a new block that processes successfully adds one call at the current height and raises the height by exactly one |
| SfIndexer.FailedBlockAbortsWithoutAdvance | ecosystem/sf-indexer/aptos-sf-indexer/src/main.rs:118-124 | a new block whose processing fails adds its call, aborts at that item, and leaves the height unchanged |
| SfIndexer.Step | ecosystem/sf-indexer/aptos-sf-indexer/src/main.rs:97-126 | one loop iteration: skip an unhandled item, or hand the block over at the current height and then advance by one or abort; StepValid proves it preserves ValidTrace |
| SfIndexer.StepValid | ecosystem/sf-indexer/aptos-sf-indexer/src/main.rs:97-126 | one loop iteration maps a valid trace of a stream to a valid trace of the stream extended by one item |
| SfIndexer.Run | ecosystem/sf-indexer/aptos-sf-indexer/src/main.rs:91-130 | the loop as a recursive function over the remaining items, stopping at the first abort; ConsumeStream's loop invariant is stated with it, and RunValid proves it meets ValidTrace |
| SfIndexer.RunValid | ecosystem/sf-indexer/aptos-sf-indexer/src/main.rs:91-130 | running the remaining iterations from a valid trace of a prefix gives a valid trace of the whole stream |
| SfIndexer.AbortIgnoresLaterEvents | ecosystem/sf-indexer/aptos-sf-indexer/src/main.rs:118-124 | after a panic, nothing the stream or the processor would have produced later changes the trace |
| SfIndexer.SuccessesAll | ecosystem/sf-indexer/aptos-sf-indexer/src/main.rs:114-117 | when every call succeeded, the number of successes is the number of calls |
| SfIndexer.HeightCountsSuccesses | ecosystem/sf-indexer/aptos-sf-indexer/src/main.rs:90-117 | the final height is the start height plus the number of blocks that processed successfully |
| SfIndexer.CallsInOrder | ecosystem/sf-indexer/aptos-sf-indexer/src/main.rs:104-117 | of two calls, the earlier has the lower height and the earlier stream position |
| SfIndexer.CallsAreHandled | ecosystem/sf-indexer/aptos-sf-indexer/src/main.rs:98-111 | every call, the last one included, hands over an item of the stream that is a new block of the block-output module |
| SfIndexer.ConsumedIffNoFailure | ecosystem/sf-indexer/aptos-sf-indexer/src/main.rs:91-124 | the loop reaches the end of the stream exactly when no new block handed to the processor fails |
| SfIndexer.EligibleOtherModuleEmpty | ecosystem/sf-indexer/aptos-sf-indexer/src/main.rs:104 | no item is eligible for a module other than block_to_block_output |
| SfIndexer.OtherModuleNeverAdvances | ecosystem/sf-indexer/aptos-sf-indexer/src/main.rs:104-126 | for any other module name the loop consumes the whole stream, processes nothing and leaves the height at the start |
| SfIndexer.ConsumedProcessesEveryBlock | ecosystem/sf-indexer/aptos-sf-indexer/src/main.rs:91-117 | when the stream is consumed to its end, every new block of the block-output module went to the processor |
| SfIndexer.ThreeBlocksTrace | ecosystem/sf-indexer/aptos-sf-indexer/src/main.rs:90-117 | three successfully processed new blocks from height 0 give calls at heights 0, 1 and 2 and final height 3 |
| SfIndexer.ThreeBlocksFromScratch | ecosystem/sf-indexer/aptos-sf-indexer/src/main.rs:90-117 | that trace is the only valid one for those three blocks |
| Natives.StatusCodesDistinct | aptos-move/framework/src/natives/mod.rs:24-29 | the struct-type-tag error code is 1, the address-parse error code is 2, and they differ |
| Natives.Zeros | aptos-move/framework/src/natives/mod.rs:47-197 | every cost field of the zero schedule is 0 |
| Natives.ZerosUnique | aptos-move/framework/src/natives/mod.rs:47-197 | a schedule whose costs are all zero is the zero schedule, so the cost set covers every field |
| Natives.Registrations | aptos-move/framework/src/natives/mod.rs:214-233 | there are eleven registrations, naming the modules account, bit_vector, signature, bls12381, aptos_hash, ristretto255, type_info, util, transaction_context, code and event in that order |
| Natives.TagModule | aptos-move/framework/src/natives/mod.rs:206-211 | tagging keeps the number and order of a module's natives and gives each the module's name, with its function name and implementation unchanged |
| Natives.MakeTableFromIter | aptos-move/framework/src/natives/mod.rs:235 | the table has one entry per native, the i-th being the i-th native at the framework address |
| Natives.Flatten | aptos-move/framework/src/natives/mod.rs:204-233 | the successive `extend` calls: the tagged natives of the first n registrations, concatenated in order; TableOfFlatten and FlattenEleven state what it yields |
| Natives.FlattenLength | aptos-move/framework/src/natives/mod.rs:204-233 | the assembled list holds exactly the total number of registered natives |
| Natives.FlattenAt | aptos-move/framework/src/natives/mod.rs:204-233 | the j-th native of the p-th module lies after all natives of the earlier modules, tagged with its module's name |
| Natives.FlattenModules | aptos-move/framework/src/natives/mod.rs:204-233 | every assembled entry carries the name of one of the registered modules |
| Natives.TableOfFlatten | aptos-move/framework/src/natives/mod.rs:204-235 | the table built from the assembled list has one entry per registered native, each at its position and at the framework address, and no other module name |
| Natives.SlotCover | aptos-move/framework/src/natives/mod.rs:204-233 | every position below the total number of natives is the slot of some native of some registration |
| Natives.TableOfUnique | aptos-move/framework/src/natives/mod.rs:200-235 | two tables that both satisfy TableOf for the same registrations are equal, so the table holds nothing besides the registered natives |
| Natives.FlattenEleven | aptos-move/framework/src/natives/mod.rs:214-233 | assembling eleven registrations gives the tagged natives of each, one after the other, in order |
| Natives.AllNativesTable | aptos-move/framework/src/natives/mod.rs:200-235 | the natives collected by the eleven calls form, once put in a table, the table of the registrations |
| Natives.AllNatives | aptos-move/framework/src/natives/mod.rs:200-235 | the native table holds every native of every framework module, in module order, each tagged with its module's name at the framework address, and nothing else |
| Natives.AddNativesFromModule | aptos-move/framework/src/natives/mod.rs:206-211 | one module's natives are appended after the existing ones, which stay unchanged, each tagged with the module's name |
| Natives.PatchTableModule | aptos-move/framework/src/natives/mod.rs:240-245 | every entry's module becomes `table`, while its address, function name and implementation stay, and the table keeps its length and order |
| Natives.PatchTableModuleIdempotent | aptos-move/framework/src/natives/mod.rs:240-245 | patching an already patched table changes nothing |
| Natives.PatchTableModuleFixpoint | aptos-move/framework/src/natives/mod.rs:240-245 | a table is unchanged by the patch exactly when every entry's module is already `table` |

## Left out

- Asynchronous execution (`tokio`, `await`) is not modelled. The loop is sequential, and each `await` is the next element of an input sequence.
- Logger setup, `info!`/`error!` output and `clap` parsing are not modelled. The arguments arrive already parsed.
- `new_db_pool` and its `unwrap` panic are not modelled. The connection pool is assumed to be created.
- What `run_migrations` does is not modelled. The model records only whether it was called: unless migrations are skipped, it is called before the package is read. The record is kept on every exit after the database URL is found: a package error, an endpoint error, or a run that reaches the loop.
- What `get_start_block` reads from the database is not modelled. It is an input, and absence means start at 0.
- `read_package` (file I/O and protobuf decoding) and `SubstreamsEndpoint::new` are each one yes/no input.
- The internals of `SubstreamsStream` are not modelled: window refill, reconnection and cursor handling. The stream is the finite sequence of items it yields. The end of the sequence is the stream's `None`.
- The processor's internals are not modelled: decoding, database writes and the progress table. Its answer for each stream position is an input.
- Heights are unbounded naturals. Three u64 effects are not modelled: the `start_block as u64` cast, overflow of `start_block + 500`, and overflow of `block_height += 1`.
- The gas cost fields are unbounded naturals rather than the source's `u64`-based gas units.
- The native implementations and each module's `make_all` are not modelled. They are arbitrary functions of the module's gas parameters.
- The internals of `make_table_from_iter` are not modelled, including the `Identifier::new(..).unwrap()` name validation and its panic. Likewise the `unwrap` in `patch_table_module`. Names are plain strings.
- The code does not check a block's provider-reported height against the local counter, and neither does the model. The code opens a single window and refills nothing itself. An unrecognised module name is silently skipped.
