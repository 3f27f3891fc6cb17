# Verified model of Zero-Nova's hard parts

This project models the parts of the repository whose correctness is not visible from any one function, and
proves what they are for. It is plain Dafny; `dafny verify dfyconfig.toml` checks all of it.

* **Two readings of one schema** (`Json`, `JsonText`, `Schema*`, `Type*`). The generator compiles a JSON Schema to a
  TypeScript type and emits an interpreter that validates values. The model takes schemas as raw documents, so that
  `$ref` walks, keyword lookups and JavaScript truthiness are those of the code. Proved: what validates inhabits the
  type; the converse where a type can say it, and what each rendered type holds (`TypeMeaning`); the validator against
  JSON Schema 2020-12 in both directions; when it terminates; which hints it gives, all of them (`SchemaReport`), and
  where they point. Side conditions come with lemmas that show what goes wrong without them, and
  `SchemaExample` has a protocol-like document that meets all of them at once.
  The validator recurs without a bound in the source; here `depth` is the call depth still available, `None` means
  it was not enough, `SchemaTermination` says exactly when some depth suffices and `SchemaHints` that it does not
  matter how much more there is. `SchemaStandard.Verdict` is an independent reading of the standard: Core sections
  8.2.3.1, 10.2.1, 10.3.1.2, 10.3.2.1 and 10.3.2.3, Validation sections 6.1.1 to 6.1.3, 6.2.4 and 6.5.3. It resolves
  references by `SchemaPointer`, after RFC 3986 section 2.1 and RFC 6901 sections 3, 4 and 6. The document theorems
  put their conditions on the nodes a reader can come to from the root (`SchemaNodes`).
* **The push index** (`PushIndex`, `PushSystem`, `PushOrder`, `PushPeers`, `PushCenter`). Three maps under three locks:
  `PushIndex` has the lock-sized steps, `PushSystem` runs any number of calls in any interleaving, `PushPeers` says from
  the events alone who is registered and whom a broadcast writes to, `PushCenter` is the class itself, each method tied
  to its steps taken in a row. Agreement of the maps at every moment needs that calls on one peer do not overlap, which
  the server does not ensure, because every message is handled in a task of its own (`websocket.rs:188`); `PushOrder`
  says which overlaps do harm, and what holds under all of them is proved separately.
* **A WebSocket connection** (`Connection`). Two bounded channels, a forwarder, a writer and the receive loop as a
  step system, with write failures, serialisation failures, shutdown and abort.
* **Streaming speech** (`SpeechText`, `SpeechPipeline`, `BargeIn`, `Resample`). Sentence segmentation over a token
  stream, two cooperating asynchronous loops that yield only at `await`, the four-stage detector and the resampler.
* **The loop guard** (`CanonicalJson`, `LoopGuard`), **lexical paths** (`Text`, `Paths`), **skill scanning**
  (`SkillScan`) and **the session cache** (`SessionCache`, and `SessionRecency` against a least-recently-used one).

`Prelude` and `Text` hold shared helpers.

## Where the code falls short of its own words

Each of these is a lemma, next to the theorem that says when the code does meet the property.

* A retained short fragment silences speech until the end of the message (`SilentIffStuck`, `ShortGreetingSticks`);
  one that ended in white space loses it (`BufferIsSuffixIff`, `FragmentLosesSpace`).
* Restarting speech under a suspended loop leaves two loops and lets old speech into the new message
  (`RestartIffCalm`, `RestartDoublesLoop`, `OldSpeechLeaks`).
* A greeting of more than 128 messages stops a connection for good (`ReceivesIff`, `LongGreetingStalls`).
* Overlapping calls on one peer can leave it in two sessions, or listed after its removal (`InterleavingIff`,
  `OrderedAgrees`, `OverlapBreaksIndex`, `RemovalOvertakes`).
* The session cache says it evicts the least recently used session; it evicts the first inserted (`RecencyIff`,
  `EvictsByRecencyWhile`, `NotLeastRecentlyUsed`). A success can keep an old error text (`LoadedMerges`,
  `ErrorOutlivesSuccess`).
* With a relative project directory the project check accepts references that climb out of it (`RelativeCheckIff`,
  `DotProject`, `NamedProject`), and with a relative allowed root that check accepts paths elsewhere (`WithinIff`,
  `DotAllowsAll`).
* The fingerprint of a text of more than 128 characters does not determine it (`FingerprintDetermines`).
* References are split at `/` and not decoded (`ResolutionAgreesIff`, `EscapedReferenceRefused`); keywords next to
  `$ref`, `enum`, `const` or a combinator are not read (`ReferenceSiblingsIff`, `EnumSiblingsIff`, `ConstSiblingsIff`,
  `CombinatorSiblingsIff`, `SiblingMissed`); `oneOf` passes values that two variants accept (`OneOfDiffersIff`); a
  reference that comes back to itself is followed for ever (`ReturnsIffAcyclic`, `LoopNeverReturns`).
* The validator and the type disagree on `enum` with `const`, on `items` and `type` that are not read, on references
  to something that is no schema and on two kinds of `additionalProperties` (`SchemaDisagree`).

## Model

| member | source | states |
|---|---|---|
| `SchemaSoundness.DocumentSound` | deskapp/scripts/generate-schemas.js:504-595 | Compiler soundness: a value the exported validator accepts inhabits the exported type, read with the flat precedence of the emitted text, for every value and every document whose reachable nodes meet the stated conditions. |
| `SchemaSoundness.Sound` | deskapp/scripts/generate-schemas.js:504-573 | The same at every node and for every set of references already followed, so a repeated reference that collapses to `unknown` does no harm. |
| `SchemaTight.TypeExact` | deskapp/scripts/generate-schemas.js:504-595 | On documents that use nothing a type cannot say, `allOf` of one variant or of bar-free ones included, the exported type holds exactly the values the validator accepts. |
| `SchemaTight.TightAccepts` | deskapp/src/generated/schema-validators.ts:5430-5607 | The converse of soundness at a node: a value of the generated type draws no hint, unless `integer`, `minimum`, `additionalProperties: false`, an undeclared required member, an `allOf` of several variants one of which has a bar in its text, a structured literal or a repeated reference occurs. |
| `SchemaTight.OneClauseText` | deskapp/scripts/generate-schemas.js:504-573 | Without unions, enums and type lists of several alternatives the text of a schema has no top-level bar, references and `allOf` taken through. |
| `TypeMeaning.AllOfMeans` | deskapp/scripts/generate-schemas.js:544-546 | What the type of `allOf` holds: everything for no variant, exactly the type of the variant for one, exactly the values of all variants if no text has a bar, and else exactly what the flat text reads as. |
| `TypeMeaning.UnionMeans` | deskapp/scripts/generate-schemas.js:536-542 | The type of `anyOf` and `oneOf` holds exactly the values of some variant, everything for none. |
| `TypeMeaning.EnumMeans` | deskapp/scripts/generate-schemas.js:532-534 | The type of an `enum` holds exactly the values of its literals. |
| `TypeMeaning.ConstMeans` | deskapp/scripts/generate-schemas.js:528-530 | The type of a `const` holds exactly the values of its literal. |
| `TypeMeaning.ListMeans` | deskapp/scripts/generate-schemas.js:548-550 | The type of a list of types holds exactly what the type of some member holds. |
| `TypeMeaning.WordMeans` | deskapp/scripts/generate-schemas.js:552-563 | The four word types hold exactly null, the texts, the booleans and the numbers. |
| `TypeMeaning.OtherMeans` | deskapp/scripts/generate-schemas.js:568-572 | Any other type, or none, holds everything, unless `properties` or `required` asks for the object type. |
| `TypeMeaning.ArrayMeans` | deskapp/scripts/generate-schemas.js:564-567 | The array type holds exactly the arrays whose items are all in the type of `items`, any array if there is none. |
| `TypeMeaning.ObjectMeans` | deskapp/scripts/generate-schemas.js:575-595 | The object type holds exactly the objects that have every required declared member, whose declared members are in their types, and all of whose members are in the type of `additionalProperties` when that is a schema. |
| `SchemaNodes.ReachableClosed` | deskapp/src/generated/schema-validators.ts:5430-5560 | The nodes the readers can come to from the root are closed under references, combinators and sub-schemas; the document theorems put their conditions on these nodes. |
| `SchemaNodes.ReachableLeast` | deskapp/src/generated/schema-validators.ts:5430-5560 | No closed set with the root is smaller, so the conditions ask about no other node. |
| `SchemaNodes.PartsClosed` | deskapp/src/generated/schema-validators.ts:5609-5624 | All that is visited is part of the document, so there are finitely many nodes. |
| `SchemaDisagree.EnumWithConstDisagrees` | deskapp/scripts/generate-schemas.js:528-534 | With both `enum` and a scalar `const` the two readings disagree on a value exactly when it is a listed value other than the constant. |
| `SchemaDisagree.ItemsFalseDisagrees` | deskapp/src/generated/schema-validators.ts:5550-5560 | `items` that is false, zero or empty text, `array` being the type or one of several: the validator accepts every array, the type only the empty one; they disagree exactly on non-empty arrays. |
| `SchemaDisagree.UnknownTypeDisagrees` | deskapp/src/generated/schema-validators.ts:5578-5607 | A `type` the validator does not know, word or not: the readings disagree exactly when `properties` or `required` is there and the value lies outside the object type made of them. |
| `SchemaDisagree.UnreadMemberDisagrees` | deskapp/src/generated/schema-validators.ts:5583-5607 | Such a type in a list of types lets every value through: the readings disagree exactly on the values whose own type is not listed and which lie outside the object type that `properties` or `required` make. |
| `SchemaDisagree.NotASchemaDisagrees` | deskapp/src/generated/schema-validators.ts:5439-5446 | A reference to something that is no schema accepts every value and renders `never`. |
| `SchemaDisagree.IndexSignatureDisagrees` | deskapp/scripts/generate-schemas.js:583-588 | An index signature also constrains the declared members: above sound nodes the readings disagree exactly on accepted objects with a declared member outside its type. |
| `SchemaDisagree.NonSchemaMembersDisagree` | deskapp/src/generated/schema-validators.ts:5533-5545 | `additionalProperties` that is neither boolean nor schema: they disagree exactly on accepted objects that have a member. |
| `SchemaDocument.ShapesAgree` | deskapp/src/generated/schema-validators.ts:5448-5458 | The two readers pick a different deciding keyword exactly on schemas with both `enum` and `const` and no `$ref`. |
| `SchemaDocument.CombinatorOrder` | deskapp/src/generated/schema-validators.ts:5460-5470 | Without an earlier keyword both readers go by the first list among `anyOf`, `oneOf` and `allOf`, exactly. |
| `SchemaDocument.ResolveRef` | deskapp/scripts/generate-schemas.js:601-615 | The loop that moves `current` down the document finds what the pointer walk denotes, or nothing. |
| `SchemaSoundness.RenderReference` | deskapp/scripts/generate-schemas.js:513-526 | A reference is followed once on a path; met again, or dangling, it is `unknown`. |
| `TypeText.JoinBarIsUnion` | deskapp/scripts/generate-schemas.js:532-542 | Text joined with a bar and read flat is exactly the union of its parts, whatever the parts contain. |
| `TypeText.JoinAmpContains` | deskapp/scripts/generate-schemas.js:544-546 | Text joined with ` & ` without parentheses still contains every value of all parts. |
| `TypeText.JoinAmpCanBeLarger` | deskapp/scripts/generate-schemas.js:544-546 | The flat reading of an intersection can be strictly larger than the intersection. |
| `TypeMeaning.InhabitsClauses` | deskapp/scripts/generate-schemas.js:532-550 | Flat text is read as the union of its clauses between bars, each the intersection of its operands. |
| `TypeMeaning.AmpReads` | deskapp/scripts/generate-schemas.js:544-546 | Two texts joined with ` & ` hold exactly: a value of any but the last clause of the first, of any but the first clause of the second, or of both clauses that meet. |
| `TypeMeaning.JoinAmpIsIntersection` | deskapp/scripts/generate-schemas.js:544-546 | For texts without a bar the flat reading is exactly the intersection. |
| `SchemaStandard.NoFalseRejection` | deskapp/src/generated/schema-validators.ts:5430-5502 | An instance valid under JSON Schema 2020-12 draws no hint: for every depth at which the validator returns, on schemas whose references are plain, whose constants have one spelling and whose object keywords come with a type. |
| `SchemaPointer.ResolutionAgreesIff` | deskapp/src/generated/schema-validators.ts:5609-5624 | The code resolves a reference as URI fragments and JSON Pointers are defined, in every document, exactly when its text is plain: behind `#/` no `%`, no `~` and no array position, and in any other form nothing that is a pointer. |
| `SchemaExample.EscapedReferenceRefused` | deskapp/src/generated/schema-validators.ts:5609-5624 | A reference with `~1` is taken literally: every string the standard accepts there is refused. |
| `SchemaAnswers.DocumentExact` | deskapp/src/generated/schema-validators.ts:5430-5607 | Without unguarded cycles and on answerable nodes the validator of a document and the standard both answer on every value, at every depth from a bound on, and agree. |
| `SchemaAnswers.VerdictReturns` | deskapp/src/generated/schema-validators.ts:5430-5607 | The standard's verdict has an answer at every depth from a bound on, for grounded nodes that are schemas with resolving references. |
| `SchemaExact.NoFalseAcceptance` | deskapp/src/generated/schema-validators.ts:5430-5502 | An instance that draws no hint is not invalid under the standard, on schemas whose keywords the validator all reads and whose references are plain. |
| `SchemaExact.ValidatorExact` | deskapp/src/generated/schema-validators.ts:5430-5607 | On schemas that meet both sets of conditions, whenever both come to an answer, no hints means valid and valid means no hints. |
| `SchemaSiblings.ReferenceSiblingsIff` | deskapp/src/generated/schema-validators.ts:5443-5446 | Keywords next to `$ref` are unread: above an exact target a value is valid exactly when it draws no hint, the target is not `false` and the value meets those keywords as well. |
| `SchemaSiblings.EnumSiblingsIff` | deskapp/src/generated/schema-validators.ts:5448-5452 | Likewise next to `enum`: valid is no hint together with every keyword that stands beside it. |
| `SchemaSiblings.ConstSiblingsIff` | deskapp/src/generated/schema-validators.ts:5454-5458 | Likewise next to `const`. |
| `SchemaSiblings.EnumExactIff` | deskapp/src/generated/schema-validators.ts:5448-5452 | An `enum` with neighbours is checked as the standard asks, on every value, exactly when all its listed values meet the neighbours already. |
| `SchemaExample.SiblingMissed` | deskapp/src/generated/schema-validators.ts:5439-5470 | A `minimum` of 3 next to `$ref`, `enum`, `const` and `anyOf`, in four documents: 1 draws no hint and the standard refuses it. |
| `SchemaSiblings.OneOfDiffersIff` | deskapp/src/generated/schema-validators.ts:5464-5466 | Above exact variants validator and standard answer `oneOf` differently exactly when two variants accept the value. |
| `SchemaSiblings.CombinatorSiblingsIff` | deskapp/src/generated/schema-validators.ts:5460-5470 | Keywords next to a combinator, the other combinators among them, are unread, as at the message root: above exact variants a value is valid exactly when it draws no hint and meets those keywords as well. |
| `SchemaTagged.TaggedUnionExact` | deskapp/src/generated/schema-validators.ts:5504-5510 | For variants that require pairwise distinct single-valued `type` enums, some variant accepts a value exactly when one alone does. |
| `SchemaTagged.TaggedOneOfIsAnyOf` | deskapp/src/generated/schema-validators.ts:328-435 | For such variants the standard's `oneOf` and `anyOf` are the same assertion. |
| `SchemaTagged.TaggedAccepts` | deskapp/src/generated/schema-validators.ts:5512-5530 | A value that a tagged variant accepts carries that variant's tag. |
| `SchemaTagged.ConstExact` | deskapp/src/generated/schema-validators.ts:5634-5636 | Comparing text accepts every spelling of a constant exactly when no object in it has two members. |
| `SchemaTagged.UntypedRejects` | deskapp/src/generated/schema-validators.ts:5478-5480 | `properties` or `required` without a `type` makes the validator refuse non-objects, which the standard lets pass. |
| `SchemaExample.ExampleExact` | deskapp/src/generated/schema-validators.ts:328-435 | A tagged union of two messages with a referenced member meets all conditions at once: the validator and the standard answer on every value, and both answers and the exported type agree. |
| `SchemaTermination.ReturnsIffAcyclic` | deskapp/src/generated/schema-validators.ts:5443-5446 | The validator returns on every value exactly when no cycle of references and combinators avoids `properties`, `items` and `additionalProperties`, which is so exactly when no such chain is longer than there are nodes. |
| `SchemaTermination.CycleNeverReturns` | deskapp/src/generated/schema-validators.ts:5443-5446 | On a node of such a cycle no call returns, whatever the value. |
| `SchemaNodes.LongChainCycles` | deskapp/src/generated/schema-validators.ts:5443-5476 | A chain longer than the number of nodes comes back to one it has passed. |
| `SchemaExample.LoopNeverReturns` | deskapp/src/generated/schema-validators.ts:5443-5446 | A document whose reference points to itself: validation never returns, on any value. |
| `SchemaTermination.ReturnsWithinBudget` | deskapp/src/generated/schema-validators.ts:5430-5502 | Then its call depth is bounded by the chain bound and the height of the value. |
| `SchemaTermination.BudgetIs` | deskapp/src/generated/schema-validators.ts:5430-5502 | That bound is linear in the height of the value. |
| `SchemaTermination.ReturnsGrounded` | deskapp/src/generated/schema-validators.ts:5443-5476 | A call that returned within some depth met no longer chain. |
| `SchemaHints.DepthIrrelevant` | deskapp/src/generated/schema-validators.ts:5430-5502 | Once a call returns, a deeper one returns the same hints: the depth is no part of the answer. |
| `SchemaHints.HintsLocated` | deskapp/src/generated/schema-validators.ts:5512-5560 | The path of every hint continues the caller's, and what the hint reports as found is what stands there in the checked value, nothing when it is missing. |
| `SchemaReport.ObjectReport` | deskapp/src/generated/schema-validators.ts:5512-5548 | The whole report on an object, in order: for each required name that is absent its one hint, for each declared member that is there all its hints, for each undeclared one the refusal or all hints of `additionalProperties`. |
| `SchemaReport.ObjectHintIff` | deskapp/src/generated/schema-validators.ts:5512-5548 | So something is a hint on an object exactly when it is one of these. |
| `SchemaReport.AbsentNames` | deskapp/src/generated/schema-validators.ts:5520-5524 | All names absent: exactly one hint each, in the order of `required`. |
| `SchemaReport.ArrayReport` | deskapp/src/generated/schema-validators.ts:5550-5560 | The report on an array: all hints on all items, in order, each under its position. |
| `SchemaReport.CombinatorReport` | deskapp/src/generated/schema-validators.ts:5460-5470 | `allOf` reports all hints of all variants, in order; a union reports nothing when some variant does, else one hint with the message of the first hint of the first variant. |
| `SchemaReport.LeafReport` | deskapp/src/generated/schema-validators.ts:5431-5458 | `true`, `false`, `enum` and `const`: exactly when there is a hint, and what it says was expected. |
| `SchemaReport.TypeReport` | deskapp/src/generated/schema-validators.ts:5578-5607 | A value not of the stated type draws one hint, which names the stated type. |
| `SchemaReport.PlainReport` | deskapp/src/generated/schema-validators.ts:5477-5502 | A value of the stated type is checked as its own kind asks; a number draws one hint exactly when it is below `minimum`. |
| `SchemaReport.UntypedReport` | deskapp/src/generated/schema-validators.ts:5477-5480 | Without a type only objects are looked into, and other values refused, exactly when `properties` or `required` is there. |
| `SchemaReport.ReferenceReport` | deskapp/src/generated/schema-validators.ts:5443-5446 | A reference is checked as what it points to, in the same place; one that points to nothing, or to something falsy, lets every value through. |
| `SchemaReport.IntegerIs` | deskapp/src/generated/schema-validators.ts:5567-5569 | Integers are the integral numbers and nothing between them. |
| `SchemaDocument.FalsyIs` | deskapp/src/generated/schema-validators.ts:5477-5480 | Falsy are exactly a missing value, `null`, `false`, zero and the empty text. |
| `SchemaValidator.ValidateObjectSchema` | deskapp/src/generated/schema-validators.ts:5512-5548 | The three loops push exactly the hints of the recursive definition, in order. |
| `SchemaValidator.MissingLoop` | deskapp/src/generated/schema-validators.ts:5520-5524 | The loop over `required` reports exactly the absent names, in order. |
| `SchemaValidator.DeclaredLoop` | deskapp/src/generated/schema-validators.ts:5526-5531 | The loop over `properties` checks exactly the members that are there. |
| `SchemaValidator.AdditionalLoop` | deskapp/src/generated/schema-validators.ts:5533-5545 | The loop over the value's keys checks exactly the undeclared ones. |
| `SchemaValidator.CombinedOutcome` | deskapp/src/generated/schema-validators.ts:5460-5470 | `anyOf` and `oneOf` accept when some variant does, `allOf` when all do, and they return when every variant does. |
| `SchemaValidator.AnyTypeIs` | deskapp/src/generated/schema-validators.ts:5583-5587 | A list of types accepts exactly what some member accepts. |
| `JsonText.PrintInjective` | deskapp/src/generated/schema-validators.ts:5634-5636 | Two documents have the same compact text exactly when they are the same document, member order included. |
| `JsonText.PrintUnique` | crates/nova-agent/src/loop_guard.rs:172 | Printed documents are uniquely readable inside any text that cannot extend a number. |
| `JsonText.PrintIs` | crates/nova-agent/src/loop_guard.rs:172 | Compact text is what RFC 8259 has: words, brackets, commas and colons without white space. |
| `JsonText.EscapesAre` | crates/nova-agent/src/loop_guard.rs:172 | The escapes are those of its section 7: quote, reverse solidus and control characters, nothing else. |
| `PushSystem.IndexAgreement` | crates/nova-gateway-core/src/push_center.rs:22-106 | Over every interleaving in which calls on one peer do not overlap, each peer is in at most one session set at all times, both maps agree on every peer no call is changing, and at rest `session_peers` is exactly the inverse of `peer_sessions`. |
| `PushSystem.BroadcastSafe` | crates/nova-gateway-core/src/push_center.rs:55-92 | Under arbitrary interleaving a broadcast attempts one send per peer at most, only to peers in both its snapshots, with the snapshot's sink, never to the excluded peer; when done it has tried all of them; no empty session set is ever stored. |
| `PushSystem.OverlapBreaksIndex` | crates/nova-gateway-core/src/push_center.rs:31-49 | Without the hypothesis: two overlapping subscriptions of one peer leave it, at rest, in both session sets. |
| `PushOrder.InterleavingIff` | crates/nova-gateway-core/src/push_center.rs:22-49 | Two calls on one peer, subscriptions or removals, in any state and whatever else is going on: afterwards the maps agree on the peer exactly when each session set that both change was changed first by the call that bound first. |
| `PushOrder.OrderedAgrees` | crates/nova-gateway-core/src/push_center.rs:22-106 | Any number of overlapping calls: if every session set is changed for the peer in the order of binding, the maps agree on it whenever no call on it is in flight. |
| `PushOrder.ExclusiveIsOrdered` | crates/nova-gateway-core/src/push_center.rs:22-106 | Calls on a peer that do not overlap change its session sets in the order of binding. |
| `PushOrder.RemovalOvertakes` | crates/nova-gateway-core/src/push_center.rs:22-49 | A removal that runs between the two steps of a subscription: at rest the peer is registered nowhere and still listed in the session. |
| `PushSystem.TargetsAre` | crates/nova-gateway-core/src/push_center.rs:72-78 | The peers written to are exactly those listed, registered and not excluded, each once. |
| `PushPeers.PeersFromEvents` | crates/nova-gateway-core/src/push_center.rs:18-29 | Over every run, from its events alone: a peer has the sink of its last registration, if no removal follows, and else none. |
| `PushPeers.BroadcastWrites` | crates/nova-gateway-core/src/push_center.rs:55-92 | Whatever runs in between, a finished broadcast has attempted exactly the peers in the session at its first snapshot, not excluded, and registered at its second, each with the sink it had then. |
| `PushPeers.RegisterStores` | crates/nova-gateway-core/src/push_center.rs:18-20 | After a registration the peer has the new sink, and no other row of any map has changed. |
| `PushPeers.AnnounceSees` | crates/nova-gateway-core/src/push_center.rs:61-67 | The first snapshot lists exactly the peers of the session, each once. |
| `PushPeers.CollectSees` | crates/nova-gateway-core/src/push_center.rs:73-80 | The second snapshot has the sinks as they are then registered. |
| `PushPeers.BeginsIff` | crates/nova-gateway-core/src/push_center.rs:18-59 | In any state exactly the calls of the class can begin, from their first step. |
| `PushIndex.FinishKeepsInverse` | crates/nova-gateway-core/src/push_center.rs:18-49 | A call that runs alone keeps the two maps inverse to each other. |
| `PushIndex.SubscribeRebinds` | crates/nova-gateway-core/src/push_center.rs:31-49 | After a subscription the peer is in the new session alone, and no other peer has moved. |
| `PushIndex.StepStage` | crates/nova-gateway-core/src/push_center.rs:22-49 | Each lock-sized step takes its peer to the next intermediate stage or back into agreement. |
| `PushIndex.StepOthers` | crates/nova-gateway-core/src/push_center.rs:22-106 | A step never touches the rows of another peer. |
| `PushIndex.StepKeepsNonEmpty` | crates/nova-gateway-core/src/push_center.rs:94-106 | No step stores an empty session set. |
| `PushCenter.AloneFinishes` | crates/nova-gateway-core/src/push_center.rs:22-49 | A call in flight that nothing interrupts has the effect of the method. |
| `PushCenter.BroadcastAlone` | crates/nova-gateway-core/src/push_center.rs:55-92 | A broadcast in flight that nothing interrupts has the effect of the method, clean-up of the stale included. |
| `PushCenter.Center.RegisterPeer` | crates/nova-gateway-core/src/push_center.rs:18-20 | Stores the sink under the peer and nothing else. |
| `PushCenter.Center.UnregisterPeer` | crates/nova-gateway-core/src/push_center.rs:22-29 | The three maps change as by its steps taken in a row. |
| `PushCenter.Center.SubscribePeerToSession` | crates/nova-gateway-core/src/push_center.rs:31-49 | The three maps change as by its steps taken in a row, nothing more when the session stays the same. |
| `PushCenter.Center.RemovePeerFromSession` | crates/nova-gateway-core/src/push_center.rs:94-106 | Drops the peer, and the session with its last peer. |
| `PushCenter.Center.BroadcastToSessionExcept` | crates/nova-gateway-core/src/push_center.rs:55-92 | Lists the session, attempts each selected sink once in that order, and afterwards unregisters exactly the peers whose send failed. |
| `PushCenter.Center.SelectSinks` | crates/nova-gateway-core/src/push_center.rs:72-78 | The filtered peers with their sinks, in listing order. |
| `PushCenter.BroadcastReaches` | crates/nova-gateway-core/src/push_center.rs:55-92 | For a caller: who is written to, who is stale, that the stale leave no trace in any map, and that nobody else is touched. |
| `PushCenter.UnregisterGone` | crates/nova-gateway-core/src/push_center.rs:22-29 | Unregistering removes every trace of one peer and changes no other. |
| `Connection.OneFifo` | crates/channel-core/src/websocket.rs:50-116 | In every reachable state, failures and shutdown included, the frames written are the printable messages of a prefix of the greeting followed by the responses in acceptance order, and pongs answer a prefix of the pings; while the writer lives nothing is missing between that prefix and the queues. |
| `Connection.InFlightBounded` | crates/channel-core/src/websocket.rs:53-72 | At most the two capacities and one message per task are in flight. |
| `Connection.RefinesFifo` | crates/channel-core/src/websocket.rs:61-73 | Every step is an enqueue, a dequeue or nothing for one unbounded queue. |
| `Connection.Delivers` | crates/channel-core/src/websocket.rs:84-113 | While the writer lives and the socket accepts, a bounded number of steps, in any schedule, brings every accepted response and every pong to the wire, in order. |
| `Connection.NeverStuck` | crates/channel-core/src/websocket.rs:61-113 | Once the receive loop runs, the bounded queues never block each other: while anything is in flight some task can move. |
| `Connection.AcceptsIff` | crates/channel-core/src/websocket.rs:54-55 | While no task moves exactly as many responses are accepted in a row as the core queue has room for. |
| `Connection.ForwardsIff` | crates/channel-core/src/websocket.rs:59-65 | While the writer does not move exactly as many responses are forwarded as the internal queue has room for. |
| `Connection.AnswersIff` | crates/channel-core/src/websocket.rs:51-116 | Likewise for pings answered; a next ping is always read. |
| `Connection.CanClose` | crates/channel-core/src/websocket.rs:116-124 | Once reading has begun a connection can always be closed: at once while it reads, within five steps while a pong waits. |
| `Connection.EverythingWritten` | crates/channel-core/src/websocket.rs:50-116 | From the events alone: while nobody refused, no write failed and nothing was aborted, a number of own steps known beforehand puts the greeting and every accepted response that prints, in order, and a pong for every ping on the wire. |
| `Connection.HistoryIsEvents` | crates/channel-core/src/websocket.rs:50-116 | The histories the other statements speak of are those of the events. |
| `Connection.WriteEnds` | crates/channel-core/src/websocket.rs:85-111 | An item reaches the wire exactly when it prints and the socket takes it; only a failed send ends the writer. |
| `Connection.SilentForGood` | crates/channel-core/src/websocket.rs:85-119 | Once the writer has ended nothing is ever written again, and pongs and forwarded responses fail. |
| `Connection.Closes` | crates/channel-core/src/websocket.rs:116-124 | When reading ends or a pong cannot be queued nothing more is read, and the abort that follows ends writing for good. |
| `Connection.RefusedCloses` | crates/channel-core/src/websocket.rs:77-80 | A refused connection closes at once, with nothing written. |
| `Connection.ForwarderEnds` | crates/channel-core/src/websocket.rs:59-65 | Behind a closed connection the forwarder ends within two steps. |
| `Connection.ReceivesIff` | crates/channel-core/src/websocket.rs:69-84 | The receive loop can be reached after a greeting exactly when the greeting has at most 128 messages. |
| `Connection.LongGreetingStalls` | crates/channel-core/src/websocket.rs:69-84 | A longer greeting fills the queue before the writer exists; then no step of any task is possible. |
| `Connection.InvariantStep` | crates/channel-core/src/websocket.rs:50-116 | What every step of the connection keeps. |
| `SpeechText.ExtractConserves` | deskapp/src/voice.ts:703-745 | The sentences cut off followed by the buffer are the text, up to white space, in order. |
| `SpeechText.FeedConserves` | deskapp/src/voice.ts:649-653 | The same over any stream of tokens. |
| `SpeechText.ExtractShapes` | deskapp/src/voice.ts:703-742 | Every sentence cut off is trimmed, has at least six characters and no Chinese terminator before its end. |
| `SpeechText.ChineseCut` | deskapp/src/voice.ts:707-711 | With one of the marks for full stop, exclamation, question or semicolon, or a line break, the text is cut behind the first of them; the piece is spoken when it has six characters and put back when shorter. |
| `SpeechText.EnglishCut` | deskapp/src/voice.ts:713-719 | Without those, it is cut behind the white space that follows the first `.`, `!` or `?` with white space behind it. |
| `SpeechText.UnmarkedCut` | deskapp/src/voice.ts:721-730 | With neither, up to 150 characters stay whole, and more are cut behind the last comma or space in reach, else at 150. |
| `SpeechText.ExtractLeaves` | deskapp/src/voice.ts:703-742 | The sentences hold the text before the cut point, up to white space; behind it either nothing can be cut and the text stays as it is, or a fragment of one to five characters is put back, trimmed, in front of the rest. |
| `SpeechText.ForcedCut` | deskapp/src/voice.ts:722-728 | An overlong buffer is cut behind the last comma or space at positions 1 to 150, or at 150 when there is none. |
| `SpeechText.SilentIffStuck` | deskapp/src/voice.ts:730-741 | Nothing more is spoken before the end of the message, whatever tokens follow, exactly when the buffer is stuck: its first terminated fragment is too short, and is cut off and put back for ever. |
| `SpeechText.ShortGreetingSticks` | deskapp/src/voice.ts:736-740 | A two-character greeting with a full stop silences the rest of its message until the end. |
| `SpeechText.FragmentLosesSpace` | deskapp/src/voice.ts:713-719 | A short English fragment is put back without the space that ended it, so its words run together. |
| `SpeechText.BufferIsSuffixIff` | deskapp/src/voice.ts:730-741 | The buffer is the end of the text, letter by letter, exactly when the piece put back had no white space at its end. |
| `SpeechText.StuckStays` | deskapp/src/voice.ts:730-741 | A stuck buffer yields nothing and stays stuck. |
| `SpeechPipeline.StreamingTTSManager.ExtractAndEnqueue` | deskapp/src/voice.ts:703-745 | The `while (true)` loop terminates, queues exactly the sentences of the recursive definition and wakes the synthesis loop. |
| `SpeechPipeline.StreamingTTSManager.Feed` | deskapp/src/voice.ts:649-653 | A token is ignored when cancelled, else buffered and cut. |
| `SpeechPipeline.StreamingTTSManager.Finish` | deskapp/src/voice.ts:658-666 | What is left, trimmed, becomes the last sentence. |
| `SpeechPipeline.StreamingTTSManager.CancelAll` | deskapp/src/voice.ts:671-686 | Clears queues and flags; suspended loops stay suspended. |
| `SpeechPipeline.StreamingTTSManager.Start` | deskapp/src/voice.ts:635-644 | Cancels, then accepts text again. |
| `SpeechPipeline.StreamingTTSManager.ResumeSynthesis` | deskapp/src/voice.ts:755-783 | Everything the synthesis loop does between two awaits, including waking the play loop. |
| `SpeechPipeline.StreamingTTSManager.ResumePlayback` | deskapp/src/voice.ts:786-800 | Everything the play loop does between two awaits. |
| `SpeechPipeline.RunGood` | deskapp/src/voice.ts:748-815 | Over every run that cancels only when nothing is suspended: one loop of each kind at most, no queue without its live loop, sentences attempted and audio played in order, no text lost. |
| `SpeechPipeline.SpeechInvariant` | deskapp/src/voice.ts:748-815 | The same for every run of a new manager. |
| `SpeechPipeline.SilentIsComplete` | deskapp/src/voice.ts:803-813 | A manager that is not cancelled and waits for nothing has attempted every sentence and played all its audio. |
| `SpeechPipeline.SpokenInFull` | deskapp/src/voice.ts:658-800 | From the end of the stream, in any order of completions, the manager falls silent after boundedly many; then the sentences attempted hold exactly the text fed, up to white space, and the audio played is exactly that of the successful syntheses, in order. |
| `SpeechPipeline.MessageSpoken` | deskapp/src/voice.ts:635-800 | A whole message, from its start on a new manager, or one that waits for nothing, through tokens among completions to its end and the silence after: the sentences attempted hold the tokens, up to white space, and the audio played is what the syntheses made, in order. |
| `SpeechPipeline.BeginOpens` | deskapp/src/voice.ts:635-644 | After any run a start leaves the manager open, with nothing buffered, queued or running in its name. |
| `SpeechPipeline.StopCancels` | deskapp/src/voice.ts:671-686 | A stop drops what is buffered and queued. |
| `SpeechPipeline.StopSilences` | deskapp/src/voice.ts:671-686 | From then until the next start nothing is taken, synthesised or played. |
| `SpeechPipeline.HistoryOfRun` | deskapp/src/voice.ts:649-653 | The text taken is that of the tokens, and the audio made that of the completions. |
| `SpeechPipeline.CompletionsEnd` | deskapp/src/voice.ts:755-800 | Completions run out, and leave the text fed and the sentences found alone. |
| `SpeechPipeline.SomethingAwaited` | deskapp/src/voice.ts:755-800 | Completions are still to come exactly while something is left to say. |
| `SpeechPipeline.WakesOne` | deskapp/src/voice.ts:755-800 | A completion wakes the loop that waits for it and no other. |
| `SpeechPipeline.FinishGood` | deskapp/src/voice.ts:658-666 | After the end of the stream the sentences alone hold all of the text. |
| `SpeechPipeline.RestartIffCalm` | deskapp/src/voice.ts:671-686 | After a restart every continuation of the message keeps to one loop of each kind exactly when no loop was suspended at the restart. |
| `SpeechPipeline.RestartDoublesLoop` | deskapp/src/voice.ts:635-644 | Restarting under a suspended synthesis leaves two synthesis loops as soon as a sentence arrives. |
| `SpeechPipeline.OldSpeechLeaks` | deskapp/src/voice.ts:765-772 | The old loop then speaks a sentence of the old message in the new one. |
| `BargeIn.FiringExplained` | deskapp/src/voice.ts:1069-1139 | The callback runs only after a calibration of at least 500 ms, then an unbroken stretch over one threshold lasting more than 150 ms, then a frame over that same threshold at least 120 ms later. |
| `BargeIn.SpeechDetected` | deskapp/src/voice.ts:1097-1130 | An unbroken loud stretch is reported exactly when it is seen 120 ms after it was found older than 150 ms. |
| `BargeIn.VerifyDecides` | deskapp/src/voice.ts:1121-1137 | In verification the first frame 120 ms on decides between speech and a cough. |
| `BargeIn.BaselineBounded` | deskapp/src/voice.ts:1083-1109 | The baseline is zero during calibration and from then on, firing included, between the quietest and the loudest frame heard, hence within 0..255 throughout. |
| `BargeIn.CalibrationEnds` | deskapp/src/voice.ts:1080-1092 | The first frame 500 ms after the start ends calibration, with the mean of all levels so far as baseline. |
| `BargeIn.StartsAnew` | deskapp/src/voice.ts:1043-1067 | Starting after a stop or a firing is starting anew; an active detector is left alone. |
| `BargeIn.FiresIffStops` | deskapp/src/voice.ts:1121-1137 | The callback runs exactly in the frame that turns the detector off, and off it hears nothing. |
| `BargeIn.SteadyNoiseIgnored` | deskapp/src/voice.ts:1094-1111 | A level that never exceeds 2.5 times its own minimum, or never exceeds 10, never fires. |
| `BargeIn.QuietTracks` | deskapp/src/voice.ts:1106-1110 | The baseline approaches a steady level within the threshold by two per cent a frame, and the level stays within it. |
| `BargeIn.BargeInDetector.Check` | deskapp/src/voice.ts:1069-1139 | One frame changes the fields and fires as the step function says, for the average of the bytes read. |
| `BargeIn.Average` | deskapp/src/voice.ts:1072-1075 | The loop computes the mean of the bytes, which is within 0..255. |
| `BargeIn.BargeInDetector.Start` | deskapp/src/voice.ts:1043-1067 | Starts calibration unless already active. |
| `BargeIn.BargeInDetector.Stop` | deskapp/src/voice.ts:1148-1167 | Stops and forgets the timers, the stage and the calibration samples. |
| `Resample.PositionInRange` | deskapp/src/voice.ts:290-296 | Every position read lies before the end of the input, because `(round(n / ratio) - 1) * ratio < n`. |
| `Resample.AtBetween` | deskapp/src/voice.ts:295-299 | An output sample lies between the two neighbouring inputs it interpolates. |
| `Resample.NeverLouder` | deskapp/src/voice.ts:295-299 | No output leaves the range of the input. |
| `Resample.LinesKept` | deskapp/src/voice.ts:295-299 | Samples of a straight line stay on that line. |
| `Resample.TimeKept` | deskapp/src/voice.ts:293-296 | Each output sample is taken at its own instant of the input. |
| `Resample.DurationKept` | deskapp/src/voice.ts:290-291 | The output lasts as long as the input to within half an output sample. |
| `Resample.SameRateCopies` | deskapp/src/voice.ts:289-303 | Equal rates copy the input. |
| `Resample.Resample` | deskapp/src/voice.ts:289-303 | The loop fills the whole output with the interpolated values and reads only inside the input. |
| `LoopGuard.LoopGuardState.EvaluateToolCall` | crates/nova-agent/src/loop_guard.rs:78-106 | The decision is the one the whole history of calls asks for, and the counter stays the length of its longest constant suffix minus one. |
| `LoopGuard.LoopGuardState.DetectStalledIteration` | crates/nova-agent/src/loop_guard.rs:108-124 | The same law for iterations. |
| `LoopGuard.TrailingIsLongest` | crates/nova-agent/src/loop_guard.rs:83-88 | The counted suffix is constant and cannot be longer. |
| `LoopGuard.LetThroughIs` | crates/nova-agent/src/loop_guard.rs:78-106 | In warn-then-reject mode the calls let through over any history are `min(k, m)` for each maximal run of `k`. |
| `LoopGuard.DecisionInRun` | crates/nova-agent/src/loop_guard.rs:90-105 | The `k`-th call of a run is rejected exactly when `k` exceeds the limit in that mode, else warned about from the second on; warn-only never rejects, a disabled guard allows. |
| `LoopGuard.RunsSpell` | crates/nova-agent/src/loop_guard.rs:83-88 | The runs spell the history, their neighbours differ, and the last is the suffix the guard counts. |
| `LoopGuard.SignatureIff` | crates/nova-agent/src/loop_guard.rs:135-181 | Two calls get equal signatures exactly when their trimmed names agree and so do the parts that count: path, offset and limit for `Read`, path for `Write` and `Edit`, trimmed command for `Bash`, the whole input up to key order otherwise. |
| `LoopGuard.SignatureIs` | crates/nova-agent/src/loop_guard.rs:135-181 | What a signature holds: the trimmed name, the trimmed path as target for `Read`, `Write` and `Edit` and none for others, and the hash of the normalised text. |
| `LoopGuard.PathIs` | crates/nova-agent/src/loop_guard.rs:142-155 | The path is the member `file_path`, or `path` when that is missing. |
| `LoopGuard.CommandIs` | crates/nova-agent/src/loop_guard.rs:158-162 | The command is trimmed, and empty when missing or no text. |
| `CanonicalJson.CanonIff` | crates/nova-agent/src/loop_guard.rs:224-240 | Normal forms are equal exactly when the documents are the same data up to key order at every depth. |
| `CanonicalJson.CanonIdempotent` | crates/nova-agent/src/loop_guard.rs:224-240 | Normalising twice is normalising once. |
| `CanonicalJson.CanonKeepsData` | crates/nova-agent/src/loop_guard.rs:224-240 | The normal form is the same data. |
| `CanonicalJson.CanonIsCanonical` | crates/nova-agent/src/loop_guard.rs:227-235 | The normal form has every object sorted, at every depth, without repeated keys. |
| `CanonicalJson.BelowIff` | crates/nova-agent/src/loop_guard.rs:227-228 | The order of keys is by the first character in which they differ, a prefix first. |
| `CanonicalJson.ObjectsSameIff` | crates/nova-agent/src/loop_guard.rs:224-240 | Two objects are the same data exactly when they answer every lookup alike. |
| `LoopGuard.FingerprintIff` | crates/nova-agent/src/loop_guard.rs:195-208 | With a collision-free hash, fingerprints agree exactly when lengths and both 64-character ends agree. |
| `LoopGuard.FingerprintIs` | crates/nova-agent/src/loop_guard.rs:195-208 | The parts of a fingerprint: the length and the hashes of the first and the last 64 characters, of all when there are no more. |
| `LoopGuard.FingerprintDetermines` | crates/nova-agent/src/loop_guard.rs:195-208 | A text shares its fingerprint with another exactly when it is longer than 128 characters. |
| `Paths.NormalizePath` | crates/nova-agent/src/path_resolver.rs:131-143 | The loop computes the walk along the components. |
| `Paths.NormalIdempotent` | crates/nova-agent/src/path_resolver.rs:131-143 | Normalising is idempotent on text and leaves neither `.` nor `..`. |
| `Paths.JoinWalks` | crates/nova-agent/src/path_resolver.rs:84-88 | Normalising a joined path is walking on from the normalised base, or starting over for an absolute reference. |
| `Paths.WalkEffect` | crates/nova-agent/src/path_resolver.rs:131-143 | A relative reference removes as many names as it climbs, as far as there are any, and appends the names it ends with. |
| `Paths.ProjectCheckIff` | crates/nova-agent/src/path_resolver.rs:91-97 | A relative reference passes the project check exactly when it walks back into every name it climbed out of. |
| `Paths.NoDipPasses` | crates/nova-agent/src/path_resolver.rs:91-97 | A reference that never climbs above its start always passes. |
| `Paths.DipsAre` | crates/nova-agent/src/path_resolver.rs:131-143 | It never climbs exactly when no prefix has more `..` than names. |
| `Paths.RelativeNormalIff` | crates/nova-agent/src/path_resolver.rs:135-137 | A relative path keeps its meaning under normalisation exactly when it has no net leading `..`. |
| `Paths.EmptyProjectAcceptsAll` | crates/nova-agent/src/path_resolver.rs:125-129 | For a relative project directory whose names all cancel every reference passes. |
| `Paths.RelativeCheckIff` | crates/nova-agent/src/path_resolver.rs:91-97 | For a relative project directory a reference lies inside exactly when it passes the check and climbs no more levels than the directory has names. |
| `Paths.AbsoluteCheckExact` | crates/nova-agent/src/path_resolver.rs:91-97 | For an absolute one the check is exact. |
| `Paths.AcceptedInsideIff` | crates/nova-agent/src/path_resolver.rs:91-97 | So what the check accepts is inside exactly when it climbs no further than that. |
| `Paths.JoinEffect` | crates/nova-agent/src/path_resolver.rs:84-88 | How far a joined path climbs and what names it ends with, from its two parts. |
| `Paths.DotProject` | crates/nova-agent/src/path_resolver.rs:125-129 | Under `.` every reference passes and exactly those that climb are outside. |
| `Paths.NamedProject` | crates/nova-agent/src/path_resolver.rs:125-129 | Under `a` the reference `../../a/x` passes and means `../a/x`. |
| `Paths.ResolvesIff` | crates/nova-agent/src/path_resolver.rs:58-123 | A reference resolves exactly when its lexical target is inside the project, unless it is absolute, and inside the allowed root, and exists if it must; with a relative directory also when it is mistaken for that. |
| `Paths.ResolveAnswers` | crates/nova-agent/src/path_resolver.rs:58-123 | Each error is given exactly when its check is the first to fail, and what resolves carries the joined path, whether it is a directory, and its origin. |
| `Paths.BareIs` | crates/nova-agent/src/path_resolver.rs:64-76 | A leading `@`, and the white space around it, is no part of the reference. |
| `Paths.WithinIff` | crates/nova-agent/src/path_resolver.rs:125-129 | The check passes what is inside, and of the rest exactly the mistaken paths, which there are for relative directories only. |
| `Paths.AbsoluteResolves` | crates/nova-agent/src/path_resolver.rs:58-123 | With absolute directories what resolves is inside the project and the allowed root. |
| `Paths.DotAllowsAll` | crates/nova-agent/src/path_resolver.rs:58-123 | With `.` as the allowed root every absolute path resolves. |
| `Paths.RelativeResolvesIff` | crates/nova-agent/src/path_resolver.rs:58-123 | The same for relative references, in terms of the reference alone. |
| `SkillScan.ScanDirRecursive` | crates/nova-skill-loader/src/lib.rs:120-133 | The recursive scan succeeds exactly on clean trees and then appends the skills in preorder. |
| `SkillScan.LoadSkillsFromDir` | crates/nova-skill-loader/src/lib.rs:48-57 | No directory gives no skills; else the recursive scan of it. |
| `SkillScan.LoadSkillsFromDirAsync` | crates/nova-skill-loader/src/lib.rs:59-82 | The scan with a stack terminates, fails exactly when the recursive one does, and returns the same multiset of skills. |
| `SkillScan.ListDirectory` | crates/nova-skill-loader/src/lib.rs:68-79 | One directory: fails exactly when it or an entry or a child's skill file does, else adds the children's skills and stacks the children. |
| `SkillScan.PreorderFinds` | crates/nova-skill-loader/src/lib.rs:120-133 | A skill is found exactly when some directory below the root holds it. |
| `SkillScan.ScanFindsFiles` | crates/nova-skill-loader/src/lib.rs:84-133 | In terms of files: exactly the skills of a `skill.toml`, or of a `SKILL.md` without one, in some directory below. |
| `SkillScan.OwnSkillIff` | crates/nova-skill-loader/src/lib.rs:84-99 | A directory has the package of its `skill.toml`, or else the skill of its `SKILL.md`. |
| `SkillScan.CleanIff` | crates/nova-skill-loader/src/lib.rs:120-133 | A scan succeeds exactly when every directory can be listed and no skill file below the root is broken. |
| `SkillScan.ScanFinds` | crates/nova-skill-loader/src/lib.rs:120-133 | The skills of a scan are, in order and each once, those of the addresses below the root that lead to one; the root's own files are never looked at. |
| `SkillScan.Popped` | crates/nova-skill-loader/src/lib.rs:67-80 | Replacing the top of the stack by its children loses nothing but its own level and shrinks what is left. |
| `SessionCache.AppState.UpdateSessionResourceState` | deskapp/src/core/state.ts:738-772 | An older update is ignored; any other is merged, stored and followed by eviction. |
| `SessionCache.AppState.EvictOldSessionCache` | deskapp/src/core/state.ts:778-792 | The two loops delete exactly the oldest-inserted others beyond three. |
| `SessionCache.WriteKeeps` | deskapp/src/core/state.ts:759-767 | An applied write keeps the written and the current session and of the others exactly the three inserted last, each unchanged, at most five in all. |
| `SessionCache.WriteArrives` | deskapp/src/core/state.ts:759-764 | An update older than what is cached changes nothing; of any other every property stands in the cached resource afterwards, and the others are as they were, or as in an idle resource. |
| `SessionCache.EvictIsSurvivors` | deskapp/src/core/state.ts:778-792 | Deleting key by key leaves exactly the entries to keep, in their order. |
| `SessionCache.CacheBounded` | deskapp/src/core/state.ts:738-792 | Over every run the cache holds at most five sessions, each once. |
| `SessionCache.TimeMonotone` | deskapp/src/core/state.ts:760-763 | While a session stays cached its `updatedAt` never decreases, if no update takes it away. |
| `SessionCache.WriteNotBeforeIff` | deskapp/src/core/state.ts:760-763 | A write keeps the order of time exactly when the update does not carry a non-numeric `updatedAt`. |
| `SessionCache.NotLeastRecentlyUsed` | deskapp/src/core/state.ts:774-792 | An instance: with four sessions cached and none current, the first inserted is evicted next even if it was just written again. |
| `SessionRecency.RecencyIff` | deskapp/src/core/state.ts:774-792 | Eviction goes by last write in every continuation that only writes to new sessions exactly when no cached session has been written again after one inserted later was. |
| `SessionRecency.EvictsByRecencyWhile` | deskapp/src/core/state.ts:738-792 | Over every run from an empty cache: the cache stays in the order of last writes exactly as long as every applied write is to a new session or the one inserted last, and so long it evicts the least recently written. |
| `SessionRecency.WriteKeepsOrderIff` | deskapp/src/core/state.ts:759-767 | An applied write keeps that order exactly when its session is new or was inserted last. |
| `SessionCache.PutKeepsPlace` | deskapp/src/core/state.ts:764 | Writing to a cached session does not renew its place. |
| `SessionCache.ConstructorsKeepTime` | deskapp/src/core/state.ts:794-813 | No resource constructor takes the time away, and marking as loading keeps it. |
| `SessionCache.LoadingThenLoaded` | deskapp/src/core/state.ts:798-804 | Loading is never refused as stale, and a later success is free of old errors. |
| `SessionCache.ErrorOutlivesSuccess` | deskapp/src/core/state.ts:802-804 | Without the loading step the old error text stays in a resource marked ready. |
| `SessionCache.LoadedMerges` | deskapp/src/core/state.ts:802-804 | A success sets the data and the time and leaves an error in the resource exactly when there was one. |
| `SessionCache.LoadingMerges` | deskapp/src/core/state.ts:798-800 | Marking as loading keeps the time and all other properties, and takes the error away. |
| `SessionCache.ErrorMerges` | deskapp/src/core/state.ts:806-813 | A failure says what went wrong and keeps the data. |

## Left out

Stated weaker than the code in one respect:

- SchemaValidator.MissingLoop: a `required` entry that is not a string is read as the empty name; JSON Schema allows strings only, and the code converts other entries with `String`.
- SchemaValidator.ValidateObjectSchema: `key in value` also sees names inherited from `Object.prototype`, such as `toString`; the model sees the object's own members only, and no member has the value `undefined`.
- SchemaDocument.ResolveRef: likewise `part in current` sees inherited names; an explicit `null` target counts as no target in both.
- SchemaHints.HintsLocated: hint paths are lists of segments; the joined text `a.b` would not tell a member `a.b` from a nested one. The wording of `expected` is modelled by its parts.
- SchemaStandard.NoFalseRejection: numbers are reals, so there is no rounding, `NaN` or negative zero; a reference to another document, an anchor or an `$id` has no verdict.
- Resample.Resample: samples and positions are reals, not floats; rounding of the 32-bit result is not modelled.
- JsonText.PrintInjective: for numbers that have a text each, as the finite doubles do; the schema modules compare reals, so the step from their values to the compared texts is not modelled.
- TypeText.InToken: object types are read as types of JSON objects; TypeScript would also let an array inhabit one whose members are all optional.
- BargeIn.FiringExplained: levels are reals; clock readings are positive and never go back, as `Date.now()` is taken to be.
- LoopGuard.FingerprintDetermines: the hash is a parameter assumed free of collisions.
- LoopGuard.SignatureIff: a number is known by its printed text; the hash in the signature may be any function. Objects have no repeated keys, as in `serde_json::Map`.
- PushSystem.IndexAgreement: holds for runs in which no two calls on one peer overlap; `PushOrder` treats the others.
- SpeechPipeline.SpeechInvariant: holds for runs that cancel or restart only when no loop is suspended. A synthesis call that throws before its first `await` is counted as a failed completion.
- SpeechText.ExtractLeaves: a string is a sequence of characters rather than UTF-16 units, so a surrogate pair counts once.
- Connection.OneFifo: a frame counts as written when `send` returns; an abort in the middle of a `send` counts as not written.
- Paths.NormalizePath: Unix paths only, the buffer kept as names rather than text; prefixes, back slashes and symbolic links are not modelled.
- SkillScan.LoadSkillsFromDirAsync: the tree is finite and does not change during the scan, so there are no symlink cycles; the stack scan's inner loop is a method of its own.
- SessionCache.TimeMonotone: for a map written only through `updateSessionResourceState`; `setCurrentSession` is modelled as the change of the current session alone.

Not modelled:

- `patternProperties`, `format`, lengths and every other keyword neither reader reads.
- The schema export to disk, the registry and constant names, `writeIfChanged`, property-name quoting.
- Sockets, tokio, TLS, SQLite, HTTP, file reading, Web Audio, media recording, Tauri and the DOM: abstract steps, queues, parameters or a directory tree stand for them.
- The texts of log lines, warnings and error messages, and the parsing of skill files.
- Protocol DTOs, routing, configuration models, defaults and migration: field copying and short case reads.
- Cached fetches that write the session maps directly, outside `updateSessionResourceState`.
- `encodeWav`, the sound detector of the recorder, `TTSManager`, ambient sound, event bus, i18n and command-line printing.
