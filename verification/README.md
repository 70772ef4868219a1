# Verification model of go-flexconf

A Dafny model of the two parts of go-flexconf in which a property only shows up across several functions, with
proofs of those properties.

**The `Load` pipeline.** Parsed layers are include-expanded, shape-checked, merged, token-resolved in place and bound
into a temporary copy that replaces the caller's value on success; variant instances are registered along the way and
taken back on failure. The copy shares what the caller's pointers lead to.

- `Text`, `Yaml`, `Trees`: strings, parsed documents, and the value tree.
- `Scanner`, `Merge`, `Resolve`, `Include`: the meaning of scanning, merging, resolving and expanding, on values, with
  their laws.
- `Nodes`: the same stages as the code runs them, on linked nodes that are rewritten in place. Validity of a node says
  that the graph below it is a tree. The include chain is a slice of an array that sibling calls share.
- `Schema`, `Fields`: destination types as a finite datatype, the collection of a struct's fields through inlined
  structs, the shape check.
- `Binding`: what binding means, with no order in it, including variants and their selectors; what it does to the
  registries is a plan, in which maps and lists have their order and the fields of a struct have none. `BindingLaws`: why
  that order does not matter to the value. `Validation`: which values are validated.
- `Running`: the binder in a given order of visits, as a function. `Agreement`: how that compares with the meaning.
  `Binder`: the binder itself, in place, which computes it.
- `Variants`: the variant registry. `Events`, `Arrangements`, `Orders`: when some order of visits goes well, and when the
  order decides.
- `Contents`: what a bind puts where, and from which trees a variant binds. `Places`: what is at a place of a document, and
  what the shape check asks of it. `Discriminators`: no token chooses a variant.
- `Memory`: the caller's memory, the copy that shares it, and how the copy is put back. `Walks`: which pointers of the
  caller a bind can follow. `Traces`: behind which of them a failed bind can leave something.
- `Panics`: when a bind is left by a panic, and which types can lead to one.
- `UserCode`, `Paths`, `Pruning`, `Filling`: binding with other hooks, at other places, without the keys that are not
  required; and which types bind from some tree at all.
- `Loader`: `Load` as a whole, and runs of loads and clears. `Layering`: which directory decides what, which error is
  reported, and what is never read. `Documents`, `Examples`: inputs on which it does not do what
  is promised.

**The vault stack.** A Manager over a driver, and a Manager over a proxy over a socket over a server over a Manager over
a driver.

- `Vault`, `Address`, `Manager`: errors as the set of sentinels they wrap, drivers as records of functions over their
  own state, addresses, the lifecycle with its retry loop.
- `Protocol`, `Agent`: error codes, framing, the replay prompter, the server one request at a time, the proxy.
- `Simulation`: the agent-backed stack behaves as the direct one. `Keepass`, `Stack`: the KeePass store refines a map,
  also behind the agent.
- `Serving`: the server with concurrent connections, idle timer, signals, shutdown and cleanup, as interleaved steps.
  `Spawn`: racing spawners. `SecretCache`: the Loader's cache of unlocked Managers. `Custody`: who holds the decrypted
  database, and when.

A stage that the code runs imperatively is a method that is proved equal to a function, or to agree with it; the laws
are lemmas about that function. User code (coercions, `Validate` hooks, factories, resolvers, prompters), encodings, the
file system, decryption and the outcome of saves are parameters: arbitrary pure functions.

## Hypotheses

Where a property holds only under a hypothesis, the hypothesis is in the statement, and a further member shows that it
is needed or is exact.

- All-or-nothing on memory. For one load in one order of visits `Loader.AllOrNothingIff` is exact, with a condition on
  tree, destination, registered instances and order. For a type and a destination, over all files that pass the shape
  check, coercions, hooks, orders and registered instances, the exact condition is `Traces.Writable`: `Loader.AllOrNothing`
  is the one half, `Loader.SomeLoadLeavesTraceIff` both. It asks of element types and variants that some tree binds to
  them; `Filling.BindableIff` and `Filling.FamilyBindsIff` tell that from the type, but where a variant is required in
  turn. `Walks.NeverWalksIff` is exact for following a pointer, which is not yet writing behind it
  (`Examples.FollowedButNeverWritten`). `Examples.FailedLoadIsSeen` is a load that leaves a trace.
- All-or-nothing on registrations needs that the bind does not panic. `Panics.VariantPanicsIff` says when the bind of a
  variant does. For a type, over all such files, coercions, hooks, orders and registered instances, the exact condition is
  `Panics.Panicky`: `Loader.RegistrationsUndone` is the one half, `Loader.SomeLoadPanicsIff` both.
  `Panics.SafeNeverPanicky` gives a condition on the variants alone, `Examples.PanicKeepsTheFirst` a load that is left by a
  panic. With both conditions a failed load leaves nothing: `Loader.FailureLeavesNothing`.
- That a bind or a load succeeds whatever the order of the fields (`Binder.BindTwice`, `Loader.LoadsAgree`) needs that the
  order does not decide (`Orders.OrderDecides`). `Orders.BindDecidesIff` and `Loader.LoadDecidesIff` are exact on binds and
  loads, over the orders they can take: a map and a list in their own order, the fields of a struct in any, a variant after
  its fields; `Loader.LoadSucceedsIff` says when some order succeeds, without going through them.
  `Orders.GoodFamiliesNeverDecide` gives a condition on the families alone, `Examples.LoadOrderDecides` a load for each half
  of it, and `Examples.OneListIsDecided` one that clashes and is still decided.
- The pointers of a destination lead to pairwise different places (`Memory.Apart`); no factory hands out a pointer that
  existed before (`Walks.FreshVariants`); no selector field is of a type whose printed form holds an address
  (`Walks.Printable`). These three are assumed of the caller.
- Well-shaped layers do not go wrong for types without arrays and interfaces (`Agreement.Plain`);
  `BindingLaws.ArraysPassButNeverBind` and `BindingLaws.ScalarsPassAsVariants` are why.
- The simulation needs a codec that loses nothing, messages within the frame cap, a prompter that keeps the answer
  contract, credentials that come from settings alone, and unlock errors with at most one coded sentinel.
  `Protocol.FrameIff`, `Simulation.TwoSentinelsStopTheRetry` and `Simulation.RunningAgentUnlocksIff` show what happens
  otherwise.
- One agent for any number of spawners needs no startup timeout; `Spawn.TimeoutStartsTwo`.

## Where code and documentation differ

The model follows the code.

- `docs/specs/templating.md` line 27 excludes `:` from a token's path; the scanner cuts at the first `:` only and
  accepts more: `Scanner.ColonInPath`, exactly `Scanner.TokenIff`.
- `docs/specs/schema-and-binding.md` line 214 says any bound value is validated; maps, slices, interface targets and
  inlined structs never are (`flexconf/bind.go:39-52`, `flexconf/bind.go:123-176`): `Validation.CollectionsAreNotValidated`,
  `Validation.InterfacesAreNotValidated`, `Validation.InlinedStructsAreNotValidated`.
- Loading is documented as all or nothing (`docs/user-guide/flexconf.md` line 72). A refused load leaves what it wrote
  behind pointers that were set (`Examples.FailedLoadIsSeen`; which load does, `Loader.AllOrNothingIff`, which destinations
  suffer it, `Loader.SomeLoadLeavesTraceIff`); one that panics on a selector behind a nil inlined
  pointer also leaves its registrations (`Examples.PanicKeepsTheFirst`; which bind panics, `Panics.VariantPanicsIff`, which
  types can lead to one, `Loader.SomeLoadPanicsIff`).
- Whether two instances count as duplicates, and so whether a load succeeds, can depend on Go's map order
  (`Examples.LoadOrderDecides`, exactly `Loader.LoadDecidesIff`).
- The comment at `internal/agent/proxy.go:79` takes a running agent to be unlocked; an agent that runs locked, say after
  a refused unlock or a lock whose reply could not be sent, can be unlocked by a Manager that comes to it only if its
  driver can do without credentials (`Simulation.LockedAgentStaysLocked`, exactly `Simulation.RunningAgentUnlocksIff`).
- The comment at `internal/agent/server.go:136` says that the cleanup clears key material on every exit path; it does
  not take the request mutex, and an unlock under way can go through after it (`Serving.UnlockedAfterCleanup`, exactly
  `Serving.UnlockedAfterCleanupIff`, and for the decrypted database `Custody.HeldAfterCleanupIff`).
- A KeePass `Set` that reports a failed save has changed the database in memory (`Keepass.FailedSaveIsSeenUntilLock`,
  exactly `Keepass.FailedWriteIsSeenIff`).

## Model

| member | source | states |
|---|---|---|
| `Scanner.ScanTokens` | flexconf/template.go:54-89 | The index loop with its literal buffer computes the recursive scan `Scan`, on every string, malformed ones included |
| `Scanner.PrintScan` | flexconf/template.go:54-104 | Scanning an accepted string and printing the segments gives the string back, and the segments are in normal form: literals non-empty, not adjacent, none ending in `$` before a token, a valid scheme, no `)` in a path |
| `Scanner.ScanPrint` | flexconf/template.go:54-104 | Printing normal-form segments with `$(` escaped as `$$(` and scanning gives them back; with `PrintScan`, scanning is a bijection onto the normal forms |
| `Scanner.TokenIff` | flexconf/template.go:82-104 | A text of the form `$(scheme:path)` is that token exactly if the scheme is a name and the path has no `)`; a `:` in the path does no harm |
| `Scanner.ColonInPath` | docs/specs/templating.md:27 | `$(a:b:c)` scans to scheme `a` and path `b:c`, which the document rules out |
| `Scanner.SchemesAre` | flexconf/template.go:91-104 | What a scheme may look like: a lower-case letter, then lower-case letters and digits |
| `Scanner.NoOpener` | flexconf/template.go:142-145 | A string without `$(` scans to itself as one literal, so the first test of resolution skips nothing |
| `Scanner.TokenIsSeen` | flexconf/template.go:142-145 | A string that scans to any token contains `$(`, so that test misses no token |
| `Scanner.ConfigIsSeen` | flexconf/include.go:42-54 | A string that scans to a `config` token contains `$(config:`, so the test before expansion misses no include |
| `Yaml.TreeOfWF` | flexconf/node.go:57-104 | A converted document lists each key of every map once |
| `Yaml.TreeOfReads` | flexconf/node.go:57-104 | Conversion gives the tree that the document reads as, key by key and item by item: a quoted scalar is tagged as a string, nothing is secret or substituted, every node has the file; it fails exactly on a repeated key |
| `Nodes.FromYaml` | flexconf/node.go:57-104 | Conversion builds, out of fresh nodes, a tree in which no node is reachable by two paths, and fails exactly when the document has no tree (aliases are copied) |
| `Nodes.Node.AddChild` | flexconf/merge.go:33-43 | Appending a key with its child keeps the node graph a tree and extends the value by that key at the end |
| `Nodes.Node.SetChild` | flexconf/merge.go:38-39 | Replacing a child keeps the node graph a tree and changes the value at that key only |
| `Nodes.MergeNode` | flexconf/merge.go:14-46 | Merging two node trees with separate nodes gives a node tree for the merge of their values, made of theirs and of fresh nodes; the inputs are not changed |
| `Nodes.MergeTrees` | flexconf/merge.go:6-12 | The loop over the layers gives the fold of their values, and nothing for no layer |
| `Nodes.TreeWF` | flexconf/node.go:29-53 | Every node tree stands for a well-formed value |
| `Nodes.ToTree` | flexconf/node.go:29-53 | Reading a node tree gives exactly the value it stands for |
| `Nodes.WalkResolve` | flexconf/template.go:122-140 | In-place resolution rewrites each scalar once: it fails with the first failing scalar's error, and otherwise leaves the resolved value on the same nodes |
| `Nodes.ResolveScalar` | flexconf/template.go:142-194 | One scalar: value, tag, secret and substituted flags as the branches of the code set them, in place |
| `Nodes.Append` | flexconf/include.go:83-100 | Go's append on a shared backing array: the caller's prefix keeps its contents whether or not the array is reused |
| `Nodes.ExpandIncludes` | flexconf/include.go:13-36 | In-place expansion over any file store gives the expanded value or the first failure, keeps the node graph a tree, and leaves the caller's chain prefix as it was though sibling calls write to the same array; it terminates by depth left, then tree size |
| `Nodes.ExpandScalarInclude` | flexconf/include.go:41-101 | The whole-value include: tests in the order of the code, then the spliced tree expanded under the longer chain |
| `Nodes.ExpandKeys` | flexconf/include.go:15-23 | The loop over a map's keys expands each child under the same chain, which each call sees unchanged |
| `Merge.FoldMeaning` | flexconf/merge.go:6-46 | The fold of any layers is the last one if that is no map, and otherwise the deep merge of the maps at the end: keys in first-seen order, each child the fold of that key's values |
| `Merge.FoldAt` | flexconf/merge.go:6-46 | At every path the fold of the layers is the fold of the providers of that path |
| `Merge.LastProviderWins` | flexconf/merge.go:21-26 | At every path the highest provider decides unless it is a map |
| `Merge.LastToSpeakDecides` | flexconf/merge.go:6-46 | The last layer that says anything about a path, if only that something on the way is no map, decides what is there, unless it has a map there |
| `Merge.NobodySpeaks` | flexconf/merge.go:6-46 | Where no layer says anything there is nothing |
| `Merge.MergeWF` | flexconf/merge.go:27-45 | Merging keeps every map's keys unique and complete |
| `Merge.MergeIdempotent` | flexconf/merge.go:14-46 | Merging a tree onto itself changes nothing |
| `Merge.CoveredMeaning` | flexconf/merge.go:14-46 | Merging `low` under `high` gives `high` exactly when `low` is covered by it |
| `Merge.AssociativeIff` | flexconf/merge.go:14-46 | Merging three trees associates exactly when `Associates` holds of them, a condition on their shapes and keys |
| `Merge.SameShapeAssociates` | flexconf/merge.go:21-26 | It holds whenever the upper two have the same shape wherever both have a key |
| `Schema.KnownLayersAssociate` | flexconf/merge.go:14-46 | Layers known to one schema without interfaces merge associatively |
| `Resolve.ResolvedMerge` | flexconf/template.go:122-194 | Resolving a merge is merging the resolved trees, tags and flags included |
| `Resolve.ResolvedFold` | flexconf/loader.go:108-114 | The same for any number of layers: resolving late gives what resolving each layer would |
| `Resolve.LateResolutionSucceeds` | flexconf/loader.go:108-114 | If every layer resolves on its own, the merge resolves |
| `Resolve.OverriddenTokenIsNotDispatched` | flexconf/loader.go:108-114 | The converse fails: the token `$(a:)`, whose dispatch fails, fails where it stands and does no harm once overridden |
| `Resolve.FailureNone` | flexconf/template.go:122-140 | Resolution succeeds exactly when every scalar of the tree resolves |
| `Resolve.FailureIsFirst` | flexconf/template.go:122-140 | The error reported is that of the first scalar, in document order, that cannot be resolved |
| `Resolve.FailureOfText` | flexconf/template.go:146-177 | Which scalars cannot be resolved, and why, told from their segments: any with a token if the loader has no resolvers; an embedded include or a token that is not dispatched, the first of which is reported; no other |
| `Resolve.FailureOfMalformed` | flexconf/template.go:146-149 | And a text that does not scan |
| `Resolve.ValueTogether` | flexconf/template.go:163-189 | The value of a text put together from two is the value of the first followed by that of the second |
| `Resolve.LoneLiteral` | flexconf/template.go:150-154 | A literal alone becomes its text, with the escapes undone, and nothing else changes |
| `Resolve.LoneToken` | flexconf/template.go:168-193 | A token alone becomes what the resolver returns, untagged, substituted, and secret if it was or the scheme is; without that value it is the error |
| `Resolve.FlagsOfText` | flexconf/template.go:163-193 | The tag is empty exactly for one token alone and that of a string for any other text with a token; the value is secret exactly if it was or a token of scheme `secret` occurs, and substituted exactly if it was or any token occurs |
| `Resolve.ResolvedSkeleton` | flexconf/template.go:122-194 | Resolution keeps every key, kind and file |
| `Resolve.ResolvedAt` | flexconf/template.go:122-140 | What is at a path after resolution is what was there, resolved |
| `Resolve.RescanningDiffers` | flexconf/template.go:150-154 | A second pass could change a resolved scalar, so visiting each node once matters |
| `Include.FailureNone` | flexconf/include.go:13-101 | Expansion gives a tree exactly when no part fails |
| `Include.FailureIsFirst` | flexconf/include.go:13-36 | The error reported is that of the first scalar, in document order, that cannot be expanded |
| `Include.ScalarExpansion` | flexconf/include.go:41-63 | One scalar, told from its segments: without an include it stays as it is, and an include with anything beside it is refused as embedded |
| `Include.LoneInclude` | flexconf/include.go:64-101 | An include alone: a wrong extension, a target that leaves the layer directory, a chain that is too deep, a cycle, an unreadable file, each with its exact condition, and otherwise the expansion of the file at the target |
| `Include.ScalarMalformed` | flexconf/include.go:42-48 | A text that looks like an include and does not scan is refused; any other that does not scan is left to resolution |
| `Include.OutsideIsNotRead` | flexconf/include.go:66-77 | Nothing outside the layer directory is read: with any other documents there, the expansion of any tree and the error are the same |
| `Include.ExpandedWF` | flexconf/include.go:13-36 | An expanded tree lists each key of every map once |
| `Include.ExpandedIsInlined` | flexconf/include.go:13-101 | An expansion that succeeds equals naive inlining |
| `Include.ExpansionIsInlining` | flexconf/include.go:13-101 | Read from a file of the store, expansion succeeds exactly when naive inlining ends within the depth cap, with the same tree |
| `Include.InlinedMonotone` | flexconf/include.go:79-82 | More depth never changes what naive inlining gives |
| `Include.CycleDiverges` | flexconf/include.go:83-88 | An include of a file on the chain cannot be inlined at any depth |
| `Include.ReportedCycleDiverges` | flexconf/include.go:83-88 | A reported cycle is real: inlining would not have ended |
| `Include.RootNameFromAnotherSource` | flexconf/include.go:83-88 | Without the hypothesis that the root is what the store has under its name, a cycle is reported where inlining ends |
| `Include.ExpandedNoConfig` | flexconf/include.go:41-60 | No scalar of an expanded tree scans to a `config` token |
| `Include.ConfigBranchUnreachable` | flexconf/template.go:168-172 | After expansion and merging, resolution never reports an embedded include |
| `Fields.Collector.Collect` | flexconf/schema.go:74-121 | The recursion over inlined structs fills the shared map with exactly the promoted fields and their index chains, and fails exactly on a bad tag or a key taken before or twice |
| `Fields.StructFields` | flexconf/schema.go:66-72 | A struct type has a field map exactly when its tags parse and no key is promoted twice |
| `Fields.ValidateShape` | flexconf/schema.go:158-209 | The shape check accepts exactly the layers in which every present, known key has the kind its field takes |
| `Places.ShapedIff` | flexconf/schema.go:158-216 | A layer passes exactly if at every place, below fields, map keys and items, at which it has something and its type says something, it has the kind for that type; keys that are no field and what is below an interface are not looked at |
| `Schema.MergeShaped` | flexconf/schema.go:158-209 | The merge of two well-shaped trees is well shaped |
| `Schema.FoldShaped` | flexconf/merge.go:6-12 | So is the merge of any number of layers |
| `Schema.SkeletonShaped` | flexconf/template.go:122-194 | Resolution, which keeps keys and kinds, keeps a tree well shaped |
| `Schema.PipelineShaped` | flexconf/loader.go:101-114 | What is bound is well shaped whenever every layer was |
| `BindingLaws.ArraysPassButNeverBind` | flexconf/schema.go:196-205 | Why the shape theorem leaves arrays out: a sequence passes the check against an array, and no tree binds to one |
| `BindingLaws.ScalarsPassAsVariants` | flexconf/schema.go:166-167 | Why it leaves interfaces out: a scalar passes against a family's interface and never binds |
| `Validation.CollectionsAreNotValidated` | flexconf/bind.go:143-176 | A map or a slice binds exactly if its parts do: no hook of its own is asked, contrary to the documentation |
| `Validation.InterfacesAreNotValidated` | flexconf/bind.go:123-141 | Nor is one for an interface: of a family it binds exactly if the tree is a map whose discriminator is a literal, of no token, that names a variant, and the variant's struct binds from the other keys; the empty one takes anything, as it is |
| `Validation.InlinedStructsAreNotValidated` | flexconf/bind.go:27-53 | A struct binds exactly if its keys fit, each field that is there binds in its own place, however deep it is inlined, and the hook of the struct itself accepts the whole; so the hook of an inlined struct is not asked |
| `BindingLaws.InfosLead` | flexconf/schema.go:91-118 | Each collected index chain leads through inlined structs to the field with its key and type |
| `Contents.InfosFlags` | flexconf/schema.go:91-118 | Each collected field has the flags of the tag of the field its chain leads to |
| `Contents.InfosComplete` | flexconf/schema.go:74-121 | Every field that an index chain leads to is collected, with its key and type |
| `BindingLaws.InfosUnique` | flexconf/schema.go:112-114 | If no key is collected twice, no two fields share one at any depth of inlining: index chains lead to different places |
| `BindingLaws.OneMoreKey` | flexconf/bind.go:39-51 | Binding one more key of a struct writes its own place and adds its own registrations, whatever was bound before |
| `BindingLaws.AfterOneMore` | flexconf/bind.go:39-51 | The same for any set of keys bound in any order: the place of the next field is still untouched |
| `BindingLaws.FewerKeys` | flexconf/bind.go:39-51 | A bind of all keys that succeeds succeeds on any part of them, with no more registrations |
| `Contents.StructHolds` | flexconf/bind.go:27-68 | A bound struct holds in the field of each key of the map, however deep it is inlined, what the child binds to on what the field held, and in every other field what it held |
| `Contents.CollectionsHold` | flexconf/bind.go:143-176 | A bound map holds under each key, and a bound slice at each index, what that child binds to on a zero element, and nothing else |
| `Contents.ScalarsHold` | flexconf/bind.go:71-118 | A scalar type takes a scalar that its coercion parses and its hook accepts; which of the three failed is the error; a refused value is in its place by then |
| `Contents.PointersHold` | flexconf/bind.go:93-97 | A pointer keeps its place, a nil one is allocated, and what it leads to is bound on what was there |
| `Contents.ZeroHolds` | flexconf/bind.go:143-176 | Every field of a zero element, however deep it is inlined, is zero |
| `Contents.ZeroIs` | flexconf/bind.go:143-176 | The zero values of the other types |
| `Contents.WrongKindRefused` | flexconf/bind.go:71-176 | A tree of another kind than the type takes is refused with the error for that, and nothing changes |
| `Contents.StructRefused` | flexconf/bind.go:27-53 | Which error a struct has for a key that is no field, for required fields when no key is there, and for its hook |
| `Contents.SelectorsAre` | flexconf/variants.go:176-192 | The selectors of an instance: what each selector field prints as, the naming key under `name`, the variant under the discriminator, which of them wins, and no others |
| `Contents.OnlyNamedVariantsBind` | flexconf/variants.go:131-150 | From a tree that names no variant, be its discriminator missing, no scalar, a token's value or unknown, a value of a family's type has one error, in every order and whatever is registered, and changes nothing |
| `Contents.NamedVariantBinds` | flexconf/variants.go:149-199 | From one that does, the struct is bound from the other keys on what the factory makes; the value is a new pointer to it, and it is what is registered last |
| `Discriminators.PartsBind` | flexconf/bind.go:27-176 | If a value binds, so does what is at every place of its tree, with the type of that place, through structs, maps, lists and variants |
| `Discriminators.UnnamedVariantFails` | flexconf/variants.go:131-150 | So if any place of a family's type has a tree that names no variant, the whole fails, in every order and whatever is registered |
| `Discriminators.TokenNamesNoVariant` | flexconf/variants.go:138-147 | If the last directory that says anything about a discriminator has any token in it, the load fails, whatever the token resolves to |
| `Agreement.ValueRuns` | flexconf/bind.go:71-176 | A run of the binder, in any order of visits, against the order-free meaning: it succeeds only if the meaning has no error, and then with its value; if the meaning has none, the outcome and the instances registered are those of going through the meaning's registrations in that order, maps and lists in their own; it changes nothing behind a pointer it does not walk, also when it fails; on a well-shaped tree without arrays and interfaces it fails only on an unknown key, a missing required key, a map key type, a scalar or a hook |
| `Agreement.StructRuns` | flexconf/bind.go:27-53 | The same for a struct, and so for a load |
| `Binder.Binder.BindStruct` | flexconf/bind.go:27-53 | The loops over keys and fields, with the fields visited in a given order, and the hook compute the run `Running.RunStruct`, value and log of registrations included, also where they fail; `Agreement.StructRuns` compares that with the order-free meaning |
| `Binder.Binder.BindAt` | flexconf/bind.go:57-68 | Walking an index chain with allocation of nil pointers reads and writes the one place it leads to, also behind pointers of the caller, and leaves what it left there when the bind fails |
| `Binder.Binder.BindValue` | flexconf/bind.go:71-118 | The dispatch on the target type computes the run `Running.RunValue`; behind a non-nil pointer of the caller the pointee is bound in place |
| `Binder.Binder.BindMap` | flexconf/bind.go:143-161 | Each key, in the order of the document, bound on a zero element, or the first failure, which leaves the place as it was |
| `Binder.Binder.BindSlice` | flexconf/bind.go:163-176 | Each item, by index, bound on a zero element, or the first failure, which leaves the place as it was |
| `Binder.Binder.BindInterface` | flexconf/bind.go:123-141 | A family's interface takes a variant, the empty interface the untyped tree, any other nothing |
| `Binder.Binder.BindVariant` | flexconf/variants.go:124-200 | Discriminator, factory, strict bind of the other keys, selectors, registration after those of the fields: the run `Running.RunVariant`, with every error case, and a panic at a selector that cannot be read |
| `Binder.Binder.DeriveSelectors` | flexconf/variants.go:176-192 | The selectors do not depend on the order in which the selector fields are visited; there is a panic exactly if one of them lies behind a nil pointer |
| `Binder.Binder.Record` | flexconf/variants.go:194-199 | Registering keeps every registry at its start plus this load's instances and listed with its start count; it is refused just when the set counts as a duplicate of one registered before or by this load |
| `Binder.Binder.Touch` | flexconf/variants.go:216-225 | The count minus one stored for a registry is its count at the start of the load |
| `Binder.Binder.Rollback` | flexconf/variants.go:233-237 | Truncation gives every registry back exactly what it held when the load started |
| `Binder.Binder.DuplicateCheck` | flexconf/variants.go:195-197 | What the search of one registry finds is exactly a clash with the sets taken before the load or by it |
| `Binder.BindTwice` | flexconf/bind.go:27-68 | Confluence: two binds of one tree from equal states, with the fields of every struct visited in orders of their own, succeed or fail together unless the order decides, and if both succeed they give the same value and the same registered instances |
| `Events.EndIff` | internal/variant/variant.go:156-171 | A sequence of registrations goes well exactly if it holds no panic and no set clashes with one taken before it or earlier in it |
| `Arrangements.SomeOrderIff` | flexconf/bind.go:38-51 | Some order of visits goes well exactly if, as far as the plan tells, nothing clashes with what is taken or with what comes after it in a fixed order, nothing panics, and no fields of a struct clash in a circle |
| `Orders.SomeOrderFailsIff` | flexconf/bind.go:38-51 | Some order does not exactly if this fails or two sets registered in different fields of one struct clash |
| `Orders.ValueSucceedsIff` | flexconf/bind.go:71-176 | A bind succeeds in some order exactly if it has no error of its own and its registrations can be arranged so |
| `Orders.DecidesIff` | flexconf/bind.go:38-51 | What a bind does to the registries goes well in one order of visits and not in another exactly if it can be arranged and two sets that are registered in different fields of one struct clash one way |
| `Orders.BindDecidesIff` | flexconf/bind.go:38-51 | The same of binds: one order of visits succeeds and one fails exactly if the bind has no error of its own and the order decides its registrations |
| `Orders.SameResult` | flexconf/bind.go:38-51 | Any two orders that succeed give the same value and the same instances |
| `Orders.GoodFamiliesNeverDecide` | flexconf/variants.go:176-199 | No order decides a bind if no discriminator is called `name` or like a selector field of its variants |
| `Examples.SelectorDiscriminatorDecides` | flexconf/variants.go:176-192 | The second half of that condition is needed: with a discriminator `type` that is also a selector field, a struct with two lists is refused exactly if the one list is visited first |
| `Examples.NameDiscriminatorDecides` | flexconf/variants.go:178-181 | So is the first half: a discriminator `name`, overwritten by the naming key, in a struct with two maps |
| `Examples.LoadOrderDecides` | flexconf/loader.go:82-126 | Whole loads of both files, from document to error: whether they succeed is up to the order in which the two fields are visited |
| `Examples.OneListIsDecided` | flexconf/bind.go:163-176 | The same two entries in one list are refused in every order of visits, so there the order does not decide |
| `Panics.ReadableAfterIff` | flexconf/variants.go:187-192 | A field can be read after a bind exactly if every inlined pointer on the way to it was set before or one of the keys it inlines is in the file |
| `Panics.VariantPanicsIff` | flexconf/variants.go:163-192 | The bind of a named variant, in any order and with any sets taken, is left by a panic exactly if that of its fields is, or its fields bind and a selector field was not reached |
| `Panics.PanicsIff` | flexconf/variants.go:163-192 | Some tree that passes the shape check, some coercions and hooks, some order and some registered instances make a bind to a type end in a panic exactly if the type leads, through fields, elements and variants, to a variant that can panic: some tree binds to its struct, and its required keys leave a selector field behind a nil inlined pointer |
| `Panics.NeverPanics` | flexconf/variants.go:163-192 | No bind to any other type is left by a panic, in any order, whatever is registered and whatever else goes wrong with it |
| `Panics.SafeNeverPanicky` | flexconf/variants.go:163-192 | No type is such if in every variant the required keys, on top of what the factory sets, reach every selector field |
| `Panics.NoSelectorBehindPointerIsSafe` | flexconf/schema.go:91-118 | For that it suffices that no selector field lies behind an inlined pointer |
| `Examples.HiddenPanicsIff` | flexconf/variants.go:187-192 | A variant whose one selector lies behind an inlined pointer left nil: its bind, in any order, panics exactly if the key is not in the file |
| `Examples.PanicKeepsTheFirst` | flexconf/loader.go:116-126 | A whole load left by that panic, in every order of visits: the registry holds exactly the instance registered before it |
| `Walks.WalksWithin` | flexconf/bind.go:57-118 | A bind walks no pointer of the caller but those that keys of the type lead through |
| `Walks.NeverWalksIff` | flexconf/bind.go:57-118 | Exactly the destinations without such a pointer are bound from every tree without walking one |
| `Examples.FollowedButNeverWritten` | flexconf/bind.go:93-118 | A pointer that a key leads through and behind which nothing is ever written |
| `UserCode.ValueAccepted` | flexconf/bind.go:226-245 | A bind that succeeds asks no hook about anything larger than its result: with hooks that accept as much up to that, it has the same outcome |
| `Paths.ValueAnywhere` | flexconf/variants.go:203-212 | The path of a place matters to a bind only for the naming key of its last segment |
| `Paths.NamingKeyIff` | flexconf/variants.go:203-212 | The naming key of a path is exactly its last segment after a dot, unless that is empty or a list item |
| `Pruning.StructPruned` | flexconf/bind.go:38-51 | A struct that binds also binds without the keys that are not required, at any place, with hooks that accept everything |
| `Traces.ValueQuiet` | flexconf/bind.go:57-118 | A run into a place with no pointer that can be written behind leaves memory as it was, however it ends |
| `Traces.TraceIff` | flexconf/bind.go:27-118 | Some tree that passes the shape check, some coercions and hooks, some order and some registered instances make the bind of a struct fail and leave a trace behind a pointer exactly if some key leads through a pointer to a place that a bind can change (`Traces.Writable`, a function of type, families and destination) |
| `Traces.BindableKinds` | flexconf/bind.go:71-176 | Which types bind from some tree, as far as the kind decides it |
| `Filling.BindableIff` | flexconf/bind.go:27-176 | A type that requires no variant of a family binds from some tree exactly if what it requires can be given, told from the type: good structs, whose required fields can be given in turn, string keys, no array |
| `Filling.FamilyBindsIff` | flexconf/variants.go:124-176 | A family whose variants require none in turn has one that binds exactly if the required fields of one can be given and the discriminator is not among them |
| `Memory.Follow` | flexconf/loader.go:116-119 | Copying the destination shares what its pointers lead to |
| `Memory.Settle` | flexconf/bind.go:57-97 | Where a bound copy lies in memory: the caller's pointers lead where they led, those of the load to new places, and no other place changes |
| `Memory.MemoryKeptIff` | flexconf/bind.go:93-97 | A bind leaves the caller's memory as it was exactly if what it put behind each pointer is what was there |
| `Loader.Loader.ReadLayer` | flexconf/loader.go:134-153 | One directory: skipped if the file is missing, an error if unreadable, unparsable, not a map or not expandable, else its expanded node tree on fresh nodes |
| `Layering.LayerIsInlined` | flexconf/loader.go:134-162 | A directory's layer is its file, if that is a map: unexpanded for a loader without resolvers, and otherwise exactly what naive inlining gives within the depth cap, if includes find that file as the load does |
| `Layering.NoLayerIff` | flexconf/loader.go:135-139 | A directory is skipped exactly if it does not have the file |
| `Layering.LayerRefused` | flexconf/loader.go:135-161 | Which error a file has that cannot be read, has a key twice, is no map, or has an include that fails; a loader without resolvers does not look at includes |
| `Loader.Loader.ReadLayers` | flexconf/loader.go:131-163 | The layers come from directories with strictly increasing indices, each the layer of its own, and every other directory has none; or it is the first directory whose file cannot be used that is reported. They share no node |
| `Loader.LayersAreFromDirs` | flexconf/loader.go:131-163 | The same of the specification of the loop |
| `Layering.LastDirectoryDecides` | flexconf/loader.go:82-114 | The last directory whose file says anything about a path decides what is bound there, unless it has a map there: it is what that file has, resolved |
| `Layering.NothingSaid` | flexconf/loader.go:82-114 | Where no file says anything, nothing is bound |
| `Layering.ErrorsInOrder` | flexconf/loader.go:82-114 | Which error is reported: that of the name, of the first directory whose file cannot be used, that no directory has it, that some layer has the wrong shape, that of a token |
| `Layering.PlainNameIff` | flexconf/loader.go:65-76 | A name is accepted exactly if it is a stem with one of the two extensions, without separators and without two dots in a row |
| `Layering.OutsideIsNotRead` | flexconf/include.go:66-77 | With any other documents outside the directories, what a load binds, or its error, is the same |
| `Layering.PreparedIsShaped` | flexconf/loader.go:101-114 | What is bound is a well-formed map that has passed the shape check |
| `Loader.Loader.Prepare` | flexconf/loader.go:82-114 | Name check, layers, shape check, merge, resolution, in that order of errors; what is bound is a well-formed map that passed the shape check |
| `Loader.Loader.BindTree` | flexconf/loader.go:116-126 | Binding into a copy, swapped in on success: `Outcome` of the run in the given order, which gives result, memory and registries in each case. Pointers of the copy are the caller's, so what is behind those it walks stays written when it fails; on an error, but not on a panic, every registry is as before |
| `Loader.PutBack` | flexconf/loader.go:116-126 | The memory and the variable after a bind, for success and failure, and that the destination is whole again |
| `Loader.Loader.Load` | flexconf/loader.go:82-126 | An error before binding changes nothing; otherwise `Outcome` of the run of the prepared tree in the given order. The destination stays valid, so that it can be loaded into again |
| `Loader.AllOrNothingIff` | flexconf/loader.go:116-126 | A load that fails without a panic restores value and registrations; in a given order of visits it changes nothing at all exactly if, by `Loader.Attempt`, a function of tree, destination, registered instances and order, what is put behind each pointer is what is there |
| `Loader.RefusalLeavesNothingIff` | flexconf/loader.go:116-126 | Where nothing but the hook of the whole can refuse, that does not depend on the order: an order-free condition on tree and destination |
| `Loader.AllOrNothing` | flexconf/loader.go:116-126 | All or nothing for every file, every order and whatever is registered, if no key of the type leads through a pointer of the destination to a place that a bind can change |
| `Loader.SomeLoadLeavesTraceIff` | flexconf/loader.go:116-126 | And that is needed: otherwise some tree that has passed the shape check, some coercions and hooks, some order and some registered instances make a load into this very destination fail and change memory |
| `Loader.RegistrationsUndone` | flexconf/loader.go:116-126 | A load that fails undoes its registrations, in every order and whatever is registered, if the type leads to no variant that can panic |
| `Loader.SomeLoadPanicsIff` | flexconf/loader.go:116-126 | And otherwise some tree that has passed the shape check, some coercions and hooks, some order and some registered instances make a load into this destination end in a panic |
| `Loader.FailureLeavesNothing` | flexconf/loader.go:116-126 | Where neither can happen, a load that fails leaves value, memory and registries as they were |
| `Loader.MemoryAfter` | flexconf/loader.go:116-126 | Whatever the outcome, memory changes at most at the places of the pointers the bind walks |
| `Loader.LoadDecidesIff` | flexconf/loader.go:116-126 | One order of visits makes a load succeed and another makes it fail exactly if its bind has no error of its own, some order succeeds, and two sets registered in different fields of one struct clash one way |
| `Loader.LoadSucceedsIff` | flexconf/loader.go:116-126 | When some order of visits makes a load succeed, and when some order makes it fail, told from the tree, the destination and what is registered |
| `Loader.LoadsAgree` | flexconf/loader.go:116-126 | Two loads from one scene in orders of their own, also into destinations with pointers: they succeed or fail together unless the order decides; if both succeed, with the same instances and the same destination up to the places of what was allocated |
| `Examples.FailedLoadIsSeen` | flexconf/loader.go:116-126 | A whole Load, from document to error, that in every order of visits fails and leaves what the file says behind a pointer of the caller |
| `Loader.Loader.Run` | flexconf/loader.go:82-126 | Over any loads, each from a source of its own, failing, panicking or not, and clears, from empty registries, no two instances of a family share a selector set |
| `Variants.Registry.AddInstance` | internal/variant/variant.go:156-171 | Appends the instance unless an earlier one counts as equal; keeps the registry free of duplicates |
| `Variants.Registry.TruncateInstances` | internal/variant/variant.go:100-106 | Keeps the first `n`, and everything for an `n` out of range |
| `Variants.Registry.ClearInstances` | internal/variant/variant.go:175-179 | Drops everything |
| `Variants.Registry.Resolve` | internal/variant/variant.go:191-214 | Found, not found or ambiguous by the number of instances that match |
| `Variants.ResolveExactlyOne` | internal/variant/variant.go:191-224 | A query finds an instance exactly when one and only one matches, and then that one |
| `Variants.ResolvePermutation` | internal/variant/variant.go:191-214 | The order of registration does not matter |
| `Variants.ResolveNarrowed` | internal/variant/variant.go:216-223 | A found instance stays found when the query gains selectors it satisfies |
| `Variants.EqualSelectorsIsNotEquality` | internal/variant/variant.go:225-235 | In general the duplicate test is neither equality nor symmetric |
| `Variants.SelectorsBuilt` | flexconf/variants.go:176-192 | Binding a variant of a good family builds a set with the discriminator, its type's selector keys and perhaps `name` |
| `Variants.BuiltEqual` | internal/variant/variant.go:225-235 | On such sets the duplicate test is map equality |
| `Variants.ValueBuilt` | flexconf/variants.go:176-192 | Every set a bind registers is built so |
| `Variants.NameDiscriminatorCollides` | flexconf/variants.go:178-181 | With a discriminator called `name` it is not: instances of two variants with unlike sets count as duplicates whichever comes first |
| `Address.AddressIff` | flexvault/address.go:12-19 | An address parses to two segments exactly when, trimmed, it is those two, non-empty, around its only slash |
| `Address.ParseAgain` | flexvault/address.go:12-19 | The normal form parses to itself, so parsing it again on the way to the backend changes nothing |
| `Address.NormalForms` | flexvault/address.go:12-19 | Which pairs of segments are reached |
| `Manager.Manager.Configure` | flexvault/manager.go:56-64 | Configured only if the driver accepts, whose error it reports |
| `Manager.Manager.Unlock` | flexvault/manager.go:70-107 | The retry loop computes `Unlocked` |
| `Manager.Manager.Get` | flexvault/manager.go:152-163 | Not configured, locked or not an address is refused with its error, without the driver; else the driver's answer for the normal form |
| `Manager.Manager.Set` | flexvault/manager.go:166-177 | The same for writing |
| `Manager.Manager.List` | flexvault/manager.go:180-187 | The same for listing, without an address: the driver's listing of that namespace |
| `Manager.Manager.Lock` | flexvault/manager.go:197-202 | The driver is locked and its error reported; the Manager counts as locked whatever the driver says |
| `Manager.AttemptsMeaning` | flexvault/manager.go:83-107 | Unlocking makes k attempts: each but the last was refused on its answers, the last was not unless the cap was reached, and the outcome is that of the last |
| `Manager.UnlockMeaning` | flexvault/manager.go:70-107 | Unlock succeeds exactly when the configured vault ends up unlocked, prompts not at all if it was unlocked, and at most as often as the cap allows |
| `Manager.UnlockTries` | flexvault/manager.go:70-107 | Unlock told by driver and prompter alone: the k-th answers are those to the k-th prompt, the driver is in the state that the earlier ones have left it in, all of those were refused for what they are, and outcome and state are those of the last try |
| `Protocol.TransportedIff` | internal/agent/protocol.go:39-79 | An error keeps its class over the wire exactly when it wraps at most one coded sentinel; it never gains one |
| `Protocol.AuthCanBeLost` | internal/agent/protocol.go:39-56 | An error that also wraps the locked sentinel loses its authentication sentinel |
| `Protocol.PrefixNumber` | internal/agent/protocol.go:89-104 | The four-byte prefix carries the length modulo 2^32 |
| `Protocol.FrameIff` | internal/agent/protocol.go:84-113 | A frame reads back and leaves the stream at the next one exactly when it is within the cap, which the writer does not test |
| `Protocol.Pipe.WriteFrame` | internal/agent/protocol.go:84-96 | Appends prefix and data |
| `Protocol.Pipe.ReadFrame` | internal/agent/protocol.go:99-113 | Consumes the next frame, or reports a short or oversized one |
| `Agent.ReplayPrompter.Dispatch` | internal/agent/prompter.go:31-46 | The answers that were asked for and no others, as they were forwarded; an error exactly if a required one is missing |
| `Agent.AgentServer.Handle` | internal/agent/server.go:205-272 | Every operation's reply and effect, and no answers left in the prompter after an unlock |
| `Agent.ProxyDriver.Unlock` | internal/agent/proxy.go:86-106 | Starts an agent if none runs, forwards the answers, keeps the connection only on success |
| `Agent.ProxyDriver.Send` | internal/agent/client.go:40-52 | One request and its reply through frames, error codes and the server |
| `Agent.ProxyDriver.Get` | internal/agent/proxy.go:117-123 | Over the connection at hand or a new one, locked if no agent runs |
| `Simulation.AttemptInStep` | internal/agent/proxy.go:86-106 | One attempt on either stack has the same outcome but for the error's way over the wire, and leaves them in step |
| `Simulation.StepInStep` | internal/agent/proxy.go:117-151 | One access on either stack likewise |
| `Simulation.AgentSimulatesDirect` | internal/agent/proxy.go:77-151 | From no agent running, one Unlock and any accesses prompt equally often, succeed together, return the same values and fail with the same error if it is the prompter's, cancellation included, and with one of the same class if not, through proxy, frames, codes, server, replay prompter and inner Manager |
| `Simulation.BrokenLinkStaysBroken` | internal/agent/proxy.go:117-151 | A connection that has failed once fails every later access, without the agent hearing of it |
| `Simulation.HandledIfItArrives` | internal/agent/client.go:40-52 | A request that arrives takes effect, also when its reply does not get through; one that does not arrive has none; in both cases the connection is dead |
| `Simulation.ProxyLockKeepsAgent` | internal/agent/proxy.go:153-162 | Locking a proxied Manager drops its connection and leaves the agent as it is |
| `Simulation.AccessConnects` | internal/agent/proxy.go:141-151 | Without a connection an access makes one if an agent runs, and finds the vault locked if none does |
| `Simulation.UnlockStartsAgent` | internal/agent/proxy.go:86-97 | Without an agent an unlock starts one; where the program cannot host one or none starts, it fails with the error for that and nothing changes |
| `Simulation.LockRequest` | internal/agent/server.go:197-200 | A lock request locks the agent's driver; the agent ends if the driver says so, and otherwise stays and reports the error |
| `Simulation.LockedAgentStaysLocked` | internal/agent/proxy.go:77-82 | Coming to an agent that runs locked, a Manager collects no credentials and cannot unlock it |
| `Simulation.RunningAgentUnlocksIff` | internal/agent/proxy.go:77-106 | When Unlock succeeds against an agent that already runs: exactly if it is unlocked, or the driver requires no credential and accepts none within the attempts allowed |
| `Simulation.TwoSentinelsStopTheRetry` | internal/agent/protocol.go:39-56 | With two coded sentinels in an unlock error the direct Manager retries and the other does not |
| `Serving.CallsAreHandling` | internal/agent/server.go:205-272 | The Manager calls of a request, one after the other, are the handling of that request |
| `Serving.StepInv` | internal/agent/server.go:113-272 | Every step of connections, timer, signals, shutdown, a failing accept and cleanup keeps the invariant |
| `Serving.RunInv` | internal/agent/server.go:75-272 | In every state of every run one request is handled at a time, the replay answers are empty while the mutex is free, at most one timer is armed, the done channel is closed at most once, the serving loop is left by a shutdown or with an error, and the Manager is where its log, run sequentially, puts it |
| `Serving.Linearizes` | internal/agent/server.go:184-264 | A reply is that of a critical section of its own request, logged between reading it and replying |
| `Serving.AccessOnlyWhileUnlocked` | internal/agent/server.go:225-244 | A value, listing or acknowledgement is given only between a successful unlock and the next lock |
| `Serving.StatusTells` | internal/agent/server.go:245-255 | A status reply tells whether the vault was unlocked at a point between reading the request and replying |
| `Serving.DeadlineMoves` | internal/agent/server.go:152-163 | A request other than status, and nothing else, moves the deadline, always to a full idle time from now, with one timer for it; a negative idle time never does |
| `Serving.FiresAtTheDeadline` | internal/agent/server.go:158-162 | The one armed timer never fires before the deadline |
| `Serving.ShutdownIff` | internal/agent/server.go:106-150 | In every run the server is shutting down exactly if its timer has fired, a signal has come, or the reply to a lock that succeeded was sent |
| `Serving.ConnectionEnds` | internal/agent/server.go:184-203 | A connection is closed by the reply to a lock that succeeded, by a reply that cannot be sent and by its client, and stays open after any other reply |
| `Serving.ClosedForGood` | internal/agent/server.go:184-203 | And stays closed |
| `Serving.NoneAccepted` | internal/agent/server.go:119-127 | No connection is accepted once the server has shut down |
| `Serving.CleanedUpIff` | internal/agent/server.go:103-143 | However its loop is left, the server exits only after the cleanup |
| `Serving.UnlockedAfterCleanup` | internal/agent/server.go:135-143 | A run in which an unlock under way goes through after the cleanup has locked the vault |
| `Serving.UnlockedAfterCleanupIff` | internal/agent/server.go:135-143 | In every run, once the cleanup has run, the vault is unlocked exactly if an unlock has succeeded since the cleanup's lock with no lock after it |
| `Serving.LockedAfterCleanup` | internal/agent/server.go:135-143 | It stays locked if no connection is unlocking at the cleanup and no unlock is read afterwards |
| `Custody.HeldAfterCleanupIff` | internal/agent/server.go:135-143 | Over KeePass, in every run, once the cleanup has run the driver holds the decrypted database exactly if an unlock has succeeded since, with no lock after it |
| `Custody.RunKeeps` | internal/agent/server.go:205-272 | Over KeePass, whatever requests are handled, the driver holds the database exactly while the vault is unlocked |
| `Spawn.RunInv` | internal/agent/spawn.go:40-95 | Without timeouts every interleaving of the calls keeps the lock exclusive and at most one agent started |
| `Spawn.OneAgent` | internal/agent/spawn.go:40-95 | Every call that has returned succeeded with the socket answering, and when all have, exactly one agent was started |
| `Spawn.StepsProgress` | internal/agent/spawn.go:83-93 | Every step but a poll that finds nothing brings the calls closer to their end |
| `Spawn.SomethingToDo` | internal/agent/spawn.go:40-95 | Until all calls have returned there is such a step |
| `Spawn.TimeoutStartsTwo` | internal/agent/spawn.go:83-94 | With a timeout a second agent is started |
| `Keepass.KeepassDriver.Get` | flexvault/driver/keepass/keepass.go:162-180 | The first entry of that title in the first group of that name, or why there is none |
| `Keepass.KeepassDriver.Set` | flexvault/driver/keepass/keepass.go:182-217 | Group and entry created where missing, the first match overwritten where not, then saved |
| `Keepass.KeepassDriver.Save` | flexvault/driver/keepass/keepass.go:243-265 | The file becomes the database in memory or stays as it was |
| `Keepass.KeepassDriver.List` | flexvault/driver/keepass/keepass.go:219-240 | Groups, or a group's titles; an unknown namespace is empty |
| `Keepass.LookupWritten` | flexvault/driver/keepass/keepass.go:182-217 | After a write the address gives the value and every other address what it gave before, duplicates notwithstanding |
| `Keepass.ListingWritten` | flexvault/driver/keepass/keepass.go:219-240 | Listings grow by exactly the missing name and the missing key |
| `Keepass.ListedIff` | flexvault/driver/keepass/keepass.go:219-240 | A key is listed in a namespace exactly if it can be looked up there |
| `Keepass.ShadowedUntouched` | flexvault/driver/keepass/keepass.go:142-160 | Groups and entries that are not the first of their name stay as they are |
| `Keepass.FileIsLastSaved` | flexvault/driver/keepass/keepass.go:243-265 | Over every run the file is the database in memory as of the last write that succeeded |
| `Keepass.FileUntouched` | flexvault/driver/keepass/keepass.go:243-265 | Until a write succeeds the file stays what it was |
| `Keepass.StepRefines` | flexvault/driver/keepass/keepass.go:95-240 | Every step of the driver, listings included, is a step of a map with ordered groups and keys, in memory and on disk, with the same report |
| `Keepass.RunRefines` | flexvault/driver/keepass/keepass.go:95-240 | Over every run each read gives what the map holds and each listing its groups or keys in the order in which they came |
| `Keepass.NoRootGroup` | flexvault/driver/keepass/keepass.go:132-140 | A database without a root group can be neither read nor written nor listed |
| `Keepass.FailedSaveIsSeenUntilLock` | flexvault/driver/keepass/keepass.go:202-216 | A write whose save failed is read back until the vault is locked, and then no more |
| `Keepass.FailedWriteIsSeenIff` | flexvault/driver/keepass/keepass.go:182-217 | A failed write shows in a read or a listing exactly if it passed every check, so that it was the save that failed, and the value is not the one that was there |
| `Custody.DriverUnlocksIff` | flexvault/driver/keepass/keepass.go:81-123 | Which answers the driver takes, and which it refuses as wrong so that others are asked for: a missing password without a key file, or a wrong one; it then stays as it was |
| `Custody.UnlocksIff` | flexvault/manager.go:70-107 | A Manager over KeePass unlocks exactly if, within its attempts, answers come that open the vault after wrong ones only; then it holds what the file holds |
| `Custody.FirstUseIff` | flexconf/secret.go:89-133 | The first use of a vault over KeePass succeeds exactly if a path is configured and one of three prompts brings answers that open the vault, after wrong ones only |
| `Custody.LockDrops` | flexvault/driver/keepass/keepass.go:125-129 | After Lock of a Manager over KeePass the driver holds no database |
| `Stack.KeepassFitsTheAgent` | flexvault/driver/keepass/keepass.go:70-123 | The KeePass driver meets the simulation's hypotheses on drivers |
| `Stack.SetThenGetThroughTheAgent` | internal/agent/proxy.go:117-131 | Through the whole stack over KeePass, what a successful Set stored is what Get returns |
| `Stack.StoredIsListed` | flexvault/manager.go:180-187 | What a successful Set stored is listed, its namespace among the namespaces and its key under its namespace |
| `SecretCache.ParseRefIff` | internal/vaultreg/registry.go:274-288 | Exactly which references name which vault and address |
| `SecretCache.EffectiveIff` | internal/vaultreg/registry.go:220-232 | Which vault a name means: the one of that name, or the default for none, if it is there |
| `SecretCache.Cache.SecretManager` | flexconf/secret.go:89-133 | A cached vault is handed out as it is; another is built, configured and unlocked once and cached only if that worked, under its effective name |
| `SecretCache.Cache.ResolveSecret` | flexconf/secret.go:58-78 | The value comes from the cached Manager, or from a new one if it unlocks |
| `SecretCache.Cache.Close` | flexconf/secret.go:137-151 | The driver of every cached Manager is locked, the Manager counts as locked, and all are forgotten, even if a driver fails; there is an error exactly if some driver has one, and it is one of theirs |
| `Custody.Close` | flexconf/secret.go:137-151 | Over KeePass no Manager that was cached holds a database afterwards |
| `SecretCache.Run` | flexconf/secret.go:58-151 | Over any resolves and closes what is cached is configured and unlocked, and between two closes no vault is unlocked with success twice, counted where Unlock succeeds |

## Left out

- YAML and JSON parsing, `reflect`, number and time parsing: library code. Documents
  are given parsed, types as `Schema`, coercions as functions.
- Recursive Go types: a `Schema` is a finite tree.
- The order in which Go visits the fields of a struct is a parameter: a choice of the next field for every place of a
  document.
- Loader.SomeLoadLeavesTraceIff, Loader.SomeLoadPanicsIff: the tree of which they speak has passed the shape check; that
  some document gives it is shown for trees of plain text only (`Documents.PlainIsPrepared`).
- Line numbers and error texts: an error is its stage or the sentinels it wraps.
- Two pointers of a destination that lead to the same place, or into each other, and two destinations that share one:
  the memory of a destination is its own.
- Factories that hand out pointers they have handed out before, and selector fields of a pointer or interface type.
- A registered instance is kept by value: that the field and the registry hold the same pointer is not modelled.
- Nodes.FromYaml: an alias inside the node it stands for (`a: &x [*x]`), on which the conversion recurses for ever, is not
  a document of the model, whose documents are finite.
- A `TextUnmarshaler` that changes its value and then fails: a scalar that does not parse leaves its place as it was.
- Destination values that are not of their type, which Go rules out, read as zero values.
- The untyped decoding of a subtree into `any`: kept as the subtree.
- Concurrent loads on the same registries, and lookups of registries by `WithRegistry` order: a Loader has one registry a
  family.
- What the proxy's `Credentials` does: one line of code; it counts as a part of `Simulation.RunningAgentUnlocksIff`.
- Include targets: joining, cleaning and containment of paths are functions of the file store; symbolic links are not
  part of this model.
- `Manager.Create`, `Manager.Open`, `Capabilities` and the driver registry: they add no state that the others do not have.
- The peer user check, file modes, pid files and stale sockets: only their effect as steps.
- Simulation.AgentSimulatesDirect: one Unlock and then accesses; a later Lock, an idle expiry or another client is not
  part of the run.
- The connection after an oversized reply: it counts as dead from then on.
- Spawn.OneAgent: an agent that fails to start, or one that is shutting down while others spawn, is not part of the runs.
- Keepass.KeepassDriver.Set: nested groups, entry fields other than those read, and field protection are not modelled;
  an entry is a list of named texts.
- Vault registry discovery and fingerprints: vaults are a fixed map with a default.
- flexcli, cmd/flexconf and the terminal prompters: user interface.
