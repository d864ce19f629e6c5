# Overwatch Teams: verified models of its core

This project models, in Dafny, the parts of the app and of the libraries it vendors whose correctness is not visible
from any single function body, and proves what they promise.

- **SnapKit's constraint compiler and registry** (`AttributeLists`, `BitSets`, `Attributes`, `Constants`, `Compiler`,
  `Geometry`, `Displacements`, `Drafts`, `Fluent`, `Updates`, `UpdateRuns`, `Matching`, `Layout`, `Maker`, `Registry`,
  `Rebuild`, `Ownership`, `Scenes`, `Runs`). The fluent DSL mutates shared descriptions; a constraint compiles its masks,
  target, relation, multiplier and constant into layout constraints; the maker prepares, makes, remakes, updates and
  removes them against a set per item.
  The model gives the compiled list a meaning (the frames that satisfy it), proves the invariants of registries and
  constraints over every run, and relates the incremental update to the rebuild.
- **Realm's timestamp conversion** (`Timestamps`).
- **RealmSwift's `List` range operations and `Realm.write`** (`RealmList`, `RealmWrite`).
- **The app's team cache** (`Teams`, `UseCases`): upserts under a computed key, saves deferred to the main queue, and
  the cached-then-network stream.
- **Realm's observer lists** (`Observation`): the intrusive doubly linked lists, one per observed row, and `forEach`.

## How the model reads the code

- The iOS branch is modelled throughout. `CGFloat`, `Float`, `Double` and `NSTimeInterval` are `real`; `int64_t` and
  `int32_t` are bounded newtypes, so that every step is proved free of overflow; masks are 64-bit vectors.
- An object whose methods update its fields is a class, a loop is a loop, and each method is tied to a specification
  function. What the code promises is then proved about those functions.
- `NSLayoutConstraint` is a plain object whose constant, priority and active flag change. It stores `notAnAttribute` as
  its second attribute when it has no second item, the case that `Constraint.swift` lines 294 and 323 provide for.
- A closure is a list of clauses: the maker getter each starts with and the fluent calls made on the result. The clauses
  share no description, so a closure that interleaves calls on two of them is the one that makes them in turn.
- `fatalError`, an Objective-C exception and a Swift trap are the result `false`, `None`, `Thrown` or `Raised`. Inputs that
  cause them are not excluded by a precondition; the contracts say exactly which they are.
- A mask is a set of attributes outside `ConstraintAttributes`, whose lemmas justify that reading, the raw comparisons
  included.
- A set is enumerated in an arbitrary order, as `NSMutableSet` and Realm's results are.

## What the proofs found

- **Timestamps.** The lower guard subtracts the epoch where it would have to add it. Timestamps less than two epochs
  (about 62 years) above the smallest one, and those in the last second before the largest, do not survive a round trip.
  `Timestamps.RoundTrip` gives the exact range.
- **Right-to-left inequalities.** `directionalEdges` with an inequality is turned round horizontally in right-to-left,
  because leading and trailing are mirrored coordinates (`Geometry.InequalitiesDifferRightToLeft`); in every other case
  the two forms agree.
- **Centres without a superview.** A centre attribute compiled with neither target nor superview is looked up under
  another attribute when it is updated. Its constant drifts exactly when it reads differently for the centre and for the
  left or top edge that stood in for it (`Compiler.SteadyUnlessUnhosted`, with `Compiler.UnhostedCentreDrifts` as a case
  in point). This is about SnapKit's own code with `NSLayoutConstraint` as a plain record: UIKit may refuse a location
  attribute without a second item before it comes to that.
- **Horizontal centres.** Plain and directional insets that denote the same rectangle give a horizontal centre opposite
  signs in right-to-left (`ConstantTargets.OppositeCentres`).
- **Points.** The x of a point is added to leading and trailing as it is, so right to left it moves them to the left
  (`Displacements.PointMeaning`).
- **Primary keys.** Two different teams share an id when a dash can move between name and abbreviation.
- **Owners behind their children.** `updateConstraints` writes into the children of the registered constraints and not
  into their owners' `constant`. An owner that was in step stays so exactly when nothing new is written into its children
  (`Ownership.UpdateAndOwner`, and `Ownership.StaleOwner` for one that does not). What was written lasts only until the
  owner is next updated: a change of its priority alone puts every child back to the constant it had before
  (`Ownership.UpdateThenChangePriority`).

## Model

| member | source | states |
|---|---|---|
| `ConstraintAttributes.LayoutAttributes` | Carthage/Checkouts/SnapKit/Source/ConstraintAttributes.swift:115-182 | the method that appends attribute by attribute returns the strictly ascending list of exactly the attributes whose bit the mask contains |
| `ConstraintAttributes.CommonBits` | Carthage/Checkouts/SnapKit/Source/ConstraintAttributes.swift:61-71 | what each of the masks 1 to 1024 with a single bit lists: left for 1, top for 2, right for 4 and so on up to the last baseline |
| `ConstraintAttributes.MobileBits` | Carthage/Checkouts/SnapKit/Source/ConstraintAttributes.swift:73-98 | the same for the single bits 2048 to 524288, from the first baseline to the vertical centre within margins |
| `ConstraintAttributes.MasksAreAscendingLists` | Carthage/Checkouts/SnapKit/Source/ConstraintAttributes.swift:115-182 | masks below 2^20 and strictly ascending duplicate-free attribute lists are in bijection: mask to list to mask and list to mask to list are identities |
| `ConstraintAttributes.AttributesOfUnion` | Carthage/Checkouts/SnapKit/Source/ConstraintAttributes.swift:185-191 | `+` on masks, a bitwise or, is union on the attributes they stand for |
| `ConstraintAttributes.AttributesDetermineMask` | Carthage/Checkouts/SnapKit/Source/ConstraintAttributes.swift:197-199 | two masks below 2^20 with the same attributes are the same raw value, so `==` on masks may be read as set equality |
| `ConstraintAttributes.ListEqualityIsMaskEquality` | Carthage/Checkouts/SnapKit/Source/ConstraintMakerRelatable.swift:44-52 | the list equality in the `relatedTo` guard is the mask equality the compile loop tests |
| `ConstraintAttributes.AggregateMasks` | Carthage/Checkouts/SnapKit/Source/ConstraintAttributes.swift:101-113 | the literals 15, 58, 192, 768, 61440, 245760 and 786432 are the masks of the attribute lists they are named after |
| `ConstraintAttributes.AggregateTests` | Carthage/Checkouts/SnapKit/Source/Constraint.swift:106-145 | each raw comparison of the compile loop with an aggregate mask holds exactly when the attribute set is that aggregate |
| `ConstraintAttributes.ChainIgnoresOrderAndRepetition` | Carthage/Checkouts/SnapKit/Source/ConstraintMakerExtendable.swift:33-177 | a chain of the same getters in any order and with any repetition builds the same mask |
| `ConstraintAttributes.ChainNames` | Carthage/Checkouts/SnapKit/Source/ConstraintMakerExtendable.swift:33-177 | a chain of getters stands for exactly the attributes its getters name, on their own or in aggregates |
| `ConstraintAttributes.ChainsByName` | Carthage/Checkouts/SnapKit/Source/ConstraintMakerExtendable.swift:33-177 | two chains of getters below 2^20 build the same mask if and only if they name the same attributes, so `edges` is `left.top.right.bottom` |
| `AttributeLists.ListedBijective` | Carthage/Checkouts/SnapKit/Source/ConstraintAttributes.swift:115-182 | an attribute set and an ascending list determine each other |
| `ConstantTargets.DirectionalAgreesWithPhysical` | Carthage/Checkouts/SnapKit/Source/ConstraintConstantTarget.swift:121-211 | directional insets give an attribute the constant of the plain insets they denote, if and only if it is not a horizontal centre in right-to-left with different leading and trailing insets; there the two constants are opposite |
| `ConstantTargets.OppositeCentres` | Carthage/Checkouts/SnapKit/Source/ConstraintConstantTarget.swift:127-190 | leading 8 and trailing 0 right to left: the directional insets give the horizontal centre 4, the plain ones -4 |
| `Layout.ToLayoutAttribute` | Carthage/Checkouts/SnapKit/Source/Constraint.swift:101-169 | the branches that pick the second attribute reach no fatalError and no index outside the list, and pick what the specification function says |
| `Layout.CompileLayouts` | Carthage/Checkouts/SnapKit/Source/Constraint.swift:91-213 | the compile loop yields distinct new inactive layout constraints, one per attribute in ascending order, each holding exactly the compiled fields |
| `Layout.Constraint.constructor` | Carthage/Checkouts/SnapKit/Source/Constraint.swift:73-214 | a new constraint owns its children, and each is exactly what its request compiles to |
| `Compiler.CompilationTotal` | Carthage/Checkouts/SnapKit/Source/Constraint.swift:101-169 | for every pair of masks and every attribute of the first, a second attribute is found: no fatalError default is reachable |
| `Compiler.CompilationDecomposes` | Carthage/Checkouts/SnapKit/Source/Constraint.swift:101-170 | for a target without attributes, with one attribute, with the same mask or with an edges/margins counterpart, compiling a mask is concatenating its single-attribute compilations in ascending order |
| `Compiler.GuardedCompilationDecomposes` | Carthage/Checkouts/SnapKit/Source/ConstraintMakerRelatable.swift:43-52 | everything the `relatedTo` guard lets through decomposes in that way |
| `Compiler.LookupAgreesWithCompile` | Carthage/Checkouts/SnapKit/Source/Constraint.swift:292-302 | the attribute an update looks up is the one the compile loop used, if and only if it is not a centre attribute compiled with neither target nor superview; for every request that names no attribute of a missing target |
| `Compiler.SteadyUnlessUnhosted` | Carthage/Checkouts/SnapKit/Source/Constraint.swift:163-181 | under the same assumption on the request, the constant recomputed for an attribute is the compiled one if and only if it is not such a centre, or its constant reads the same for the centre and for the left or top edge that stands in for it |
| `Compiler.DriftFreeIsBalanced` | Carthage/Checkouts/SnapKit/Source/ConstraintConstantTarget.swift:51-211 | for an unhosted centre numbers, sizes and points never drift; plain insets are drift-free iff the two of the axis add up to 0; directional ones iff they do so vertically and left to right, and iff leading is three times trailing right to left |
| `Compiler.UnhostedCentreDrifts` | Carthage/Checkouts/SnapKit/Source/Constraint.swift:163-181 | a concrete centre constraint without target and superview whose update recomputes a constant different from the compiled one |
| `Geometry.EdgesMeaning` | Carthage/Checkouts/SnapKit/Source/Constraint.swift:101-213 | frames satisfying `edges.relation(view).inset(k)` are those that relate side by side to the view's rectangle, scaled by the multiplier and shrunk by k, for all real insets, plain or directional, and both layout directions; with equality, exactly that rectangle |
| `Geometry.DirectionalEdgesMeaning` | Carthage/Checkouts/SnapKit/Source/Constraint.swift:101-213 | the same for `directionalEdges`, with leading and trailing read as mirrored coordinates; right-to-left turns horizontal inequalities round |
| `Geometry.EdgesEqualDirectionalEdges` | Carthage/Checkouts/SnapKit/Source/Constraint.swift:101-213 | `edges` and `directionalEdges` with the same insets have the same solutions, for equalities in both layout directions and for inequalities left to right |
| `Geometry.InequalitiesDifferRightToLeft` | Carthage/Checkouts/SnapKit/Source/Constraint.swift:101-213 | right to left, for every inequality between two different items there is a layout that satisfies the plain form and not the directional one |
| `Geometry.InsetFrame` | Carthage/Checkouts/SnapKit/Source/Constraint.swift:101-213 | with equality and the default multiplier, `edges` or `directionalEdges` inset by k hold for exactly the view's rectangle shrunk by k, in both layout directions |
| `Geometry.EdgesToMarginsMeaning` | Carthage/Checkouts/SnapKit/Source/Constraint.swift:106-118 | `edges` against a target's margins: the frame relates to the margins rectangle, scaled and shrunk by the insets |
| `Geometry.MarginsToEdgesMeaning` | Carthage/Checkouts/SnapKit/Source/Constraint.swift:119-131 | `margins` against a target's edges: the margins rectangle relates to the frame, scaled and shrunk by the insets |
| `Geometry.DirectionalEdgesToMarginsMeaning` | Carthage/Checkouts/SnapKit/Source/Constraint.swift:132-144 | `directionalEdges` against a target's directional margins, with the right-to-left turn of inequalities |
| `Geometry.DirectionalMarginsToEdgesMeaning` | Carthage/Checkouts/SnapKit/Source/Constraint.swift:145-157 | `directionalMargins` against a target's directional edges, with the right-to-left turn of inequalities |
| `Geometry.SuperviewStandsIn` | Carthage/Checkouts/SnapKit/Source/Constraint.swift:183-189 | without a target, and without centres and dimensions, compiling is compiling against the superview |
| `Geometry.SuperviewInsets` | Carthage/Checkouts/SnapKit/Source/Constraint.swift:183-189 | `edges` or `directionalEdges` equal to insets hold for the superview's rectangle, scaled and shrunk by them, with the right-to-left turn of directional inequalities |
| `Geometry.SizeMeaning` | Carthage/Checkouts/SnapKit/Source/Constraint.swift:180-189 | `size` against a constant fixes width and height, whatever the multiplier and the superview |
| `Geometry.CenterMeaning` | Carthage/Checkouts/SnapKit/Source/Constraint.swift:163-189 | `center` against a point places the centre at that offset from the superview's top left corner, scaled by the multiplier |
| `Displacements.InsetMeaning` | Carthage/Checkouts/SnapKit/Source/ConstraintConstantTarget.swift:121-211 | whatever attribute is related to the same attribute of a view with insets, edges, margins, centres, baselines, width and height alike: it relates to that attribute of the view's box with all sides moved inwards by the insets; for directional insets on a horizontal centre right to left, by the insets with left and right exchanged |
| `Displacements.InwardBoxSatisfies` | Carthage/Checkouts/SnapKit/Source/ConstraintConstantTarget.swift:121-211 | where the attributes named are those of the view's box moved inwards, an equality with the insets holds if and only if it is not about a horizontal centre right to left with different leading and trailing insets |
| `Displacements.SizeInsetMeaning` | Carthage/Checkouts/SnapKit/Source/ConstraintConstantTarget.swift:160-163 | `size.relation(view).inset(k)`: each dimension relates to the view's, scaled, less the two insets of its axis |
| `Displacements.PointMeaning` | Carthage/Checkouts/SnapKit/Source/ConstraintConstantTarget.swift:82-104 | a point means x to the right and y down for every positional attribute, and x to the left for leading and trailing right to left; dimensions take nothing from it |
| `Displacements.SizeAndNumberMeaning` | Carthage/Checkouts/SnapKit/Source/ConstraintConstantTarget.swift:51-80 | a number is added to any attribute; a size adds to width and height and moves nothing else; an unknown type adds nothing |
| `Maker.Accepts` | Carthage/Checkouts/SnapKit/Source/ConstraintMakerRelatable.swift:43-52 | the guard, computed from the lists, accepts exactly a set of at most one attribute, the same set, or the opposite one of edges and margins, plain or directional |
| `Maker.ConstraintDescription.RelateTo` | Carthage/Checkouts/SnapKit/Source/ConstraintMakerRelatable.swift:39-75 | relatedTo records relation, target and constant for every kind of operand, and stops exactly on what the guard rejects and on unknown operands |
| `Maker.ConstraintDescription.Perform` | Carthage/Checkouts/SnapKit/Source/ConstraintMakerEditable.swift:34-62 | every fluent call, `equalToSuperview` and its siblings included, has exactly the effect of its value-level specification on the shared description and its memoised constraint, and stops exactly where that has no result |
| `Maker.ConstraintDescription.ReadConstraint` | Carthage/Checkouts/SnapKit/Source/ConstraintDescription.swift:42-60 | the lazy property compiles what the description holds at its first read and gives the same constraint ever after |
| `Drafts.ReadFreezesTheRequest` | Carthage/Checkouts/SnapKit/Source/ConstraintDescription.swift:42-60 | once the property has been read, no later fluent call changes what will be installed |
| `Drafts.RequestsAreSound` | Carthage/Checkouts/SnapKit/Source/ConstraintMaker.swift:162-179 | every request a closure leaves behind constrains at least one attribute, starts from the maker's item and asks for no attribute of a missing target |
| `Fluent.GuardInWords` | Carthage/Checkouts/SnapKit/Source/ConstraintMakerRelatable.swift:43-52 | which operands the guard lets through, by the ascending lists of the attributes on both sides |
| `Fluent.ChainTells` | Carthage/Checkouts/SnapKit/Source/ConstraintMakerRelatable.swift:39-75 | a chain of calls read off the calls alone: it goes through if and only if no call relates to a rejected or unknown operand or to a missing superview or reads the constraint before any relation; the attributes are then those of all getters called, the right-hand side the last relating call's, the multiplier the last scaling call's or 1, the priority the last one given or 1000, and the constant, side by side, that of the last relating, offset or inset call |
| `Fluent.AsksForOne` | Carthage/Checkouts/SnapKit/Source/ConstraintDescription.swift:42-60 | the calls determine one request and no other, so nothing of a request is left open by ChainTells |
| `Fluent.RunsInWords` | Carthage/Checkouts/SnapKit/Source/ConstraintMaker.swift:168-170 | a closure runs to its end if and only if every call of every clause goes through |
| `Fluent.RequestsInWords` | Carthage/Checkouts/SnapKit/Source/ConstraintMaker.swift:171-178 | the requests of a closure are, one each and in order, what the clauses that relate to something ask for with their calls up to the first read of the constraint |
| `Maker.RunClosure` | Carthage/Checkouts/SnapKit/Source/ConstraintMaker.swift:162-170 | running a closure leaves one description per maker getter, in order, each as its own calls made it and none sharing a constraint with another |
| `Maker.PrepareConstraints` | Carthage/Checkouts/SnapKit/Source/ConstraintMaker.swift:168-179 | prepareConstraints gives the distinct, new, inactive constraints of exactly the descriptions that relate to something, in order; it stops exactly when some clause stops |
| `Layout.Constraint.UpdateConstantAndPriorityIfNeeded` | Carthage/Checkouts/SnapKit/Source/Constraint.swift:292-302 | every child gets the constant of the looked-up attribute, and a priority only if neither it nor the new one is required |
| `Layout.Constraint.PerformAll` | Carthage/Checkouts/SnapKit/Source/Constraint.swift:237-267 | after any run of updates: if the last one that is not a priority is an offset, it is every child's constant; if it is an inset, the owner has its four sides and every child what they come to; with priorities only the owner's constant stays; from the first update on the children are in step, whatever they held before, and each has the priority its history determines |
| `Updates.ConstantFollowsLast` | Carthage/Checkouts/SnapKit/Source/Constraint.swift:237-254 | the owner's constant is the last offset or inset asked for, side by side, and stays as it was if there is none |
| `Updates.PriorityFollowsLast` | Carthage/Checkouts/SnapKit/Source/Constraint.swift:258-267 | the owner's priority is the last one asked for, and stays as it was if there is none |
| `Updates.RequiredStaysRequired` | Carthage/Checkouts/SnapKit/Source/Constraint.swift:297-300 | a child created at required priority stays there through every run of updates |
| `Updates.OptionalFollowsHistory` | Carthage/Checkouts/SnapKit/Source/Constraint.swift:297-300 | over every run with priorities at most 1000, a child created below required always holds the most recent non-required priority, and never becomes required |
| `UpdateRuns.InStepIsRecompiled` | Carthage/Checkouts/SnapKit/Source/Constraint.swift:292-302 | for a constraint whose request names no attribute of a missing target: children in step are as recompiling with the present constant gives, and children as recompiled are in step, each if and only if the present constant is drift-free, the condition of SteadyUnlessUnhosted on every attribute |
| `UpdateRuns.UpdateRun` | Carthage/Checkouts/SnapKit/Source/Constraint.swift:237-302 | after any run of updates on a constraint as made, active or not, every child is, constant aside, the recompilation at the priority its history leaves it; the constants too are the recompiled ones if and only if the run is empty or the latest constant is drift-free; the last offset, if no inset came after it, is every child's constant |
| `UpdateRuns.MakeThenUpdate` | Carthage/Checkouts/SnapKit/Source/Constraint.swift:237-302 | made by makeConstraints and then updated, the n-th constraint is registered, its children are active, and they are what its request tells after the updates, as UpdateRun states it |
| `UpdateRuns.TracksTells` | Carthage/Checkouts/SnapKit/Source/Constraint.swift:292-302 | the state that any story of own updates leaves a constraint in, in terms of compilation: priorities and shapes in any case, the constants, unless an updateConstraints on its item came last, if and only if there was no own update or the latest constant is drift-free |
| `UpdateRuns.UpdatedInsetMeaning` | Carthage/Checkouts/SnapKit/Source/Constraint.swift:292-295 | a child in step with updated insets, that relates an attribute to the same one of a view, relates it to that of the view's box with all sides moved inwards by the new insets |
| `Layout.Item.Add` | Carthage/Checkouts/SnapKit/Source/LayoutConstraintItem.swift:65-70 | adding constraints is set union on the item's registry |
| `Layout.Item.Remove` | Carthage/Checkouts/SnapKit/Source/LayoutConstraintItem.swift:72-77 | removing constraints is set difference on the item's registry |
| `Layout.Constraint.IsActive` | Carthage/Checkouts/SnapKit/Source/Constraint.swift:61-69 | isActive holds exactly when some child is active |
| `Registry.ActiveIffRegistered` | Carthage/Checkouts/SnapKit/Source/Constraint.swift:304-340 | in every consistent state a constraint is in its own item's set iff all its layout constraints are active iff any is, and it is in no other item's set |
| `Registry.SetIsActive` | Carthage/Checkouts/SnapKit/Source/Constraint.swift:51-59 | the setter keeps the registries consistent and adds or removes exactly this constraint |
| `Registry.RemoveConstraints` | Carthage/Checkouts/SnapKit/Source/ConstraintMaker.swift:205-210 | removal empties the item's registry, deactivates every layout constraint registered there and keeps the registries consistent |
| `Registry.MakeConstraints` | Carthage/Checkouts/SnapKit/Source/ConstraintMaker.swift:181-186 | making adds exactly the prepared constraints, each child as compiled, and keeps the registries consistent |
| `Registry.RemakeConstraints` | Carthage/Checkouts/SnapKit/Source/ConstraintMaker.swift:188-191 | remaking leaves exactly the newly prepared constraints registered and everything old inactive |
| `Registry.UpdateConstraints` | Carthage/Checkouts/SnapKit/Source/ConstraintMaker.swift:193-203 | with nothing registered, updating is making; otherwise it registers and deactivates nothing, runs to the end iff every new layout constraint has a registered one of its shape, changes constants of named shapes only, even when it stops, and gives each named shape that is there once the last constant written to it |
| `Runs.Run` | Carthage/Checkouts/SnapKit/Source/ConstraintMaker.swift:168-210 | any run of prepare, make, remake, update, remove, activate, deactivate, isActive and update(...) on any items, in any directions, up to its end or to the operation that stops the program: each operation takes one scene to the next as it says (which constraints are made, of which requests and in which order, which are registered, which data changes and how, and whether the program goes on); a constraint is registered if and only if the last operation since its birth that switches it turned it on; registered, all children active and any child active are the same; registries hold only their own item's constraints; the last offset, inset and priority given to a constraint stand, and its children are what its own history tells (TracksTells), whatever else has happened |
| `Scenes.LastSwitchDecides` | Carthage/Checkouts/SnapKit/Source/ConstraintMaker.swift:181-210 | over the scenes of any run: made, remade or updated into an empty registry a constraint is born registered, and from then on the last activation, deactivation, isActive, removal or remaking that concerns it decides |
| `Scenes.OnlyMadeAreOn` | Carthage/Checkouts/SnapKit/Source/ConstraintMaker.swift:181-186 | over the scenes of any run, nothing is registered that was not made |
| `Layout.Constraint.ActivateUpdatingExisting` | Carthage/Checkouts/SnapKit/Source/Constraint.swift:304-325 | the updating path changes the first registered match of each child, in whatever order the set enumerates them, and stops exactly when a child has none |
| `Layout.UpdateEach` | Carthage/Checkouts/SnapKit/Source/Constraint.swift:317-325 | the in-place loop over the enumerated layout constraints computes the fold of first-match updates, stops exactly at the first new one without a match, and has then made exactly the updates before it |
| `Matching.UpdateSucceeds` | Carthage/Checkouts/SnapKit/Source/Constraint.swift:317-325 | the first-match update runs to the end iff every new layout constraint has a match, and keeps every shape |
| `Matching.UpdateSettles` | Carthage/Checkouts/SnapKit/Source/Constraint.swift:317-325 | the fold of first-match updates in closed form: a layout constraint behind another one of its shape keeps its constant, every other one takes the last constant written to its shape |
| `Matching.UpdateTwiceIsOnce` | Carthage/Checkouts/SnapKit/Source/Constraint.swift:317-325 | running the whole first-match update a second time in one and the same enumeration order changes nothing, whatever is registered twice |
| `Matching.TwinsDependOnOrder` | Carthage/Checkouts/SnapKit/Source/Constraint.swift:311-318 | two registered twins with constants 1 and 2 and a new one with 3: a second update that enumerates them the other way round changes the other twin as well |
| `Matching.UnnamedStay` | Carthage/Checkouts/SnapKit/Source/Constraint.swift:317-325 | however far the update gets before it stops, a layout constraint that no new one names keeps its data |
| `Matching.OrderIsIrrelevant` | Carthage/Checkouts/SnapKit/Source/Constraint.swift:311-325 | if no shape the new ones name is there twice, the result of the update does not depend on the order in which the set enumerates the registered layout constraints |
| `Matching.UpdateIsIdempotent` | Carthage/Checkouts/SnapKit/Source/Constraint.swift:317-325 | the order-free outcome of an update is idempotent |
| `Matching.LatestKeepsShape` | Carthage/Checkouts/SnapKit/Source/LayoutConstraint.swift:46-62 | an update changes constants only, and only into that of a new layout constraint of the same shape |
| `Matching.UpdateRefinesRebuild` | Carthage/Checkouts/SnapKit/Source/ConstraintMaker.swift:188-203 | with registered layout constraints pairwise non-`==` and every new one matched, updating gives the multiset a rebuild gives if and only if the new ones are pairwise non-`==` and as many as the registered ones |
| `Matching.UpdateReaches` | Carthage/Checkouts/SnapKit/Source/ConstraintMaker.swift:188-203 | an update writing the shapes of a target list with constants of its own reaches exactly that list, as a multiset, if and only if the list is pairwise non-`==`, as long as the registered ones, and no constant differs |
| `Registry.WritesWhatItCompiles` | Carthage/Checkouts/SnapKit/Source/Constraint.swift:317-325 | the same for one request |
| `Registry.AllWriteWhatTheyCompile` | Carthage/Checkouts/SnapKit/Source/Constraint.swift:317-325 | for requests that name no attribute of a missing target, the constants an update writes are the compiled ones if and only if every request is drift-free |
| `Rebuild.SuperviewHosts` | Carthage/Checkouts/SnapKit/Source/Constraint.swift:186-189 | under a superview every request of every closure is drift-free |
| `Rebuild.Remake` | Carthage/Checkouts/SnapKit/Source/ConstraintMaker.swift:188-191 | after a rebuild the active layout constraints of the item are, as a multiset of all their fields, the compiled closure |
| `Rebuild.Update` | Carthage/Checkouts/SnapKit/Source/ConstraintMaker.swift:193-203 | with registered layout constraints pairwise non-`==`, a completed update leaves active the multiset that Remake installs for the same closure if and only if the compiled ones are pairwise non-`==`, as many as the registered ones, and every request is drift-free |
| `Rebuild.UpdateTwice` | Carthage/Checkouts/SnapKit/Source/ConstraintMaker.swift:193-203 | where no shape the closure writes is registered twice, a second updateConstraints with the same closure completes whenever the first does and changes nothing, in whatever orders the two enumerate the set |
| `Ownership.UpdateAndOwner` | Carthage/Checkouts/SnapKit/Source/Constraint.swift:311-325 | an owner in step with its children before a completed updateConstraints, with no shape the closure writes registered twice, is in step after it if and only if the closure writes nothing new into its children |
| `Ownership.UpdateThenChangePriority` | Carthage/Checkouts/SnapKit/Source/Constraint.swift:44-48 | after a completed updateConstraints, changing an owner's priority puts every one of its children back to the constant it had before updateConstraints |
| `Ownership.StaleOwner` | Carthage/Checkouts/SnapKit/Source/Constraint.swift:323-324 | a left edge made at offset 8 and updated to 16: the child holds 16, the owner 8, and they are out of step |
| `Timestamps.ForInterval` | Carthage/Checkouts/realm-cocoa/Realm/RLMUtil.hpp:146-169 | the step by step conversion overflows no int64 or int32 and yields the well-formed timestamp of the truncated total, one of the clamps, or the epoch for not-a-number |
| `Timestamps.Converted` | Carthage/Checkouts/realm-cocoa/Realm/RLMUtil.hpp:153-168 | every produced timestamp has less than a second of nanoseconds and no opposite signs |
| `Timestamps.Monotone` | Carthage/Checkouts/realm-cocoa/Realm/RLMUtil.hpp:146-169 | for all real dates, clamped ones included, a later or equal date has a lexicographically later or equal timestamp |
| `Timestamps.WithinOneNanosecond` | Carthage/Checkouts/realm-cocoa/Realm/RLMUtil.hpp:159-168 | outside the clamps the represented instant is within a nanosecond of the date, on the side of the reference date |
| `Timestamps.SameTotalSameTimestamp` | Carthage/Checkouts/realm-cocoa/Realm/RLMUtil.hpp:163-167 | a same-sign representation of an instant is unique |
| `Timestamps.ReferenceDates` | Carthage/Checkouts/realm-cocoa/Realm/RLMUtil.hpp:139-168 | the reference date is 978307200 seconds after the epoch, that is 31 years with 8 leap days, and the epoch as long before the reference date, both ways |
| `Timestamps.RoundTrip` | Carthage/Checkouts/realm-cocoa/Realm/RLMUtil.hpp:139-169 | a well-formed timestamp survives conversion to a date and back if and only if it is one of the clamps or lies in the range the two guards leave open |
| `Timestamps.LowerClampLosesTimestamps` | Carthage/Checkouts/realm-cocoa/Realm/RLMUtil.hpp:156-157 | a representable timestamp that the lower guard clamps away |
| `Timestamps.Idempotent` | Carthage/Checkouts/realm-cocoa/Realm/RLMUtil.hpp:139-169 | converting back and forth a second time changes nothing, for every real date |
| `RealmList.List.ReplaceSubrange` | Carthage/Checkouts/realm-cocoa/RealmSwift/List.swift:504-513 | the removals and reversed insertions give prefix, new elements, suffix, or throw with exactly the specified remains; they complete if and only if there is nothing to do or the range lies in the list |
| `RealmList.List.RemoveSubrange` | Carthage/Checkouts/realm-cocoa/RealmSwift/List.swift:631-638 | repeated removal at the lower bound removes the range, or throws with exactly the specified remains |
| `RealmList.List.InsertContents` | Carthage/Checkouts/realm-cocoa/RealmSwift/List.swift:618-624 | forward insertion at increasing positions inserts the block, or throws before inserting anything |
| `RealmList.ReplaceIsRemoveThenInsert` | Carthage/Checkouts/realm-cocoa/RealmSwift/List.swift:504-513 | replacing a range, defined by its outcomes, is removing it and then inserting the block, in what it leaves and in what it throws on |
| `RealmList.RemoveThenInsert` | Carthage/Checkouts/realm-cocoa/RealmSwift/List.swift:618-638 | removal followed by insertion of a block has the outcome of replaceSubrange, errors included |
| `RealmList.List.AppendObjects` | Carthage/Checkouts/realm-cocoa/RealmSwift/List.swift:288-292 | appending a sequence object by object appends it as a block |
| `RealmList.List.RemoveFirst` | Carthage/Checkouts/realm-cocoa/RealmSwift/List.swift:585-594 | drops exactly the first elements, or throws and changes nothing |
| `RealmList.List.RemoveLast` | Carthage/Checkouts/realm-cocoa/RealmSwift/List.swift:602-611 | drops exactly the last elements, or throws and changes nothing |
| `RealmList.List.DecodeFrom` | Carthage/Checkouts/realm-cocoa/RealmSwift/List.swift:724-731 | decoding succeeds iff every entry decodes, and then holds the decoded entries in order |
| `RealmList.EncodeThenDecode` | Carthage/Checkouts/realm-cocoa/RealmSwift/List.swift:723-740 | encoding and decoding rebuilds the same list whenever every element survives on its own |
| `RealmWrite.Realm.Write` | Carthage/Checkouts/realm-cocoa/RealmSwift/Realm.swift:212-223 | for every block of edits, commits, cancels, begins and throws: it raises iff the block misuses transactions or one was already open; else no transaction is left open, the data is the surviving edits on top of the old data, and the block's own error is passed on |
| `RealmWrite.RunMeansSurviving` | Carthage/Checkouts/realm-cocoa/RealmSwift/Realm.swift:212-223 | running a block, from inside or outside a transaction, agrees with the reading of the block that runs nothing |
| `RealmWrite.SplitsWhereItOpens` | Carthage/Checkouts/realm-cocoa/RealmSwift/Realm.swift:216-222 | a block splits where its last transaction opens: the transactions closed before it count on their own, and the rest as if it had just begun |
| `RealmWrite.ThrowRollsBack` | Carthage/Checkouts/realm-cocoa/RealmSwift/Realm.swift:216-221 | after any legal steps that end by opening a transaction, edits and a throw leave exactly what the earlier transactions committed |
| `RealmWrite.ReturnCommitsAll` | Carthage/Checkouts/realm-cocoa/RealmSwift/Realm.swift:222-222 | a block of edits that returns has all of them committed |
| `RealmWrite.CommitIsFinal` | Carthage/Checkouts/realm-cocoa/RealmSwift/Realm.swift:216-222 | after any legal steps that end by opening a transaction, edits and a commit are kept, with everything committed before, whatever follows |
| `RealmWrite.CancelDropsItsEdits` | Carthage/Checkouts/realm-cocoa/RealmSwift/Realm.swift:216-222 | after any legal steps that end by opening a transaction, a cancel drops exactly the edits of its own transaction |
| `Teams.IdCollision` | overwatch_teams/DatabasePlataform/Entities/TeamRealmEntity.swift:26-33 | two pairs of name and abbreviation share a primary key if and only if they are equal or one is the other with the dash moved |
| `Teams.DashFreeIdsAreUnique` | overwatch_teams/DatabasePlataform/Entities/TeamRealmEntity.swift:26-33 | distinct pairs with dash-free abbreviations never share a primary key |
| `Teams.DashedIdsCollide` | overwatch_teams/DatabasePlataform/Entities/TeamRealmEntity.swift:32-32 | two different teams that do share a primary key |
| `Teams.LastWriterWins` | overwatch_teams/DatabasePlataform/TeamsRealmRepository.swift:11-19 | after any saves each id holds the last team saved under it, field by field, untouched ids keep what they held, and no id disappears |
| `Teams.ResavingIsIdempotent` | overwatch_teams/DatabasePlataform/TeamsRealmRepository.swift:11-19 | saving the same teams again changes nothing |
| `Teams.AddStepsSave` | Carthage/Checkouts/realm-cocoa/RealmSwift/Realm.swift:415-419 | adding a sequence with update .all, one edit per object inside write, is the upsert of the sequence |
| `Teams.TeamsRealmRepository.Save` | overwatch_teams/DatabasePlataform/TeamsRealmRepository.swift:11-19 | save only queues: the store stays the upsert of a prefix of the issued saves, and the queue the rest of them |
| `Teams.TeamsRealmRepository.RunNext` | overwatch_teams/DatabasePlataform/TeamsRealmRepository.swift:12-18 | the main queue commits the oldest queued save as one transaction, and the store is the upsert of one more issued save |
| `Teams.TeamsRealmRepository.RunAll` | overwatch_teams/DatabasePlataform/TeamsRealmRepository.swift:11-19 | once the queue has drained, the store is the upsert of all issued saves |
| `Teams.TeamsRealmRepository.Get` | overwatch_teams/DatabasePlataform/TeamsRealmRepository.swift:21-23 | get lists every stored team exactly once |
| `UseCases.TeamsUseCasesImp.GetTeams` | overwatch_teams/Domain/UseCases/TeamsUseCases.swift:21-42 | the call reads the cache once, keeps it for delivery iff it is non-empty, and changes nothing |
| `UseCases.TeamsUseCasesImp.Subscribe` | overwatch_teams/Domain/UseCases/TeamsUseCases.swift:22-30 | each completed subscription, whenever and however often it is made, receives the cache of the call first iff that was non-empty, then every response in its place with the four fields of each team, then finish if the service finished and domainUnkown if it failed, and nothing else; each response that finds the use case alive is saved once, in order, field by field |
| `UseCases.DeliveredEach` | overwatch_teams/Domain/UseCases/TeamsUseCases.swift:23-28 | the i-th response is the i-th event, with each field of each team the network model's, and there are no other events |
| `UseCases.SavedEach` | overwatch_teams/Domain/UseCases/TeamsUseCases.swift:24-25 | the i-th response that finds the use case alive is the i-th save, with each field of each team the network model's, and there are no other saves |
| `UseCases.CacheHoldsLastResponse` | overwatch_teams/Domain/UseCases/TeamsUseCases.swift:21-42 | when the last issued save has distinct ids, the cache after draining holds every one of its teams exactly, with no other team under those ids |
| `UseCases.RefreshAndRead` | overwatch_teams/Domain/UseCases/TeamsUseCases.swift:21-42 | a whole refresh, drain and read, through the code paths above, shows the last response |
| `Observation.RLMObservationInfo.ForEach` | Carthage/Checkouts/realm-cocoa/Realm/RLMObservation.hpp:115-130 | from any node of a well-formed list, forEach ends after calling the visitor on the predecessors from nearest to head and then on the node itself through to the tail |
| `Observation.VisitsEveryNodeOnce` | Carthage/Checkouts/realm-cocoa/Realm/RLMObservation.hpp:115-130 | that order visits every node exactly once |
| `Observation.VisitedAt` | Carthage/Checkouts/realm-cocoa/Realm/RLMObservation.hpp:121-129 | the exact position at which each node is visited |
| `Observation.RLMObservationInfo.SetRow` | Carthage/Checkouts/realm-cocoa/Realm/RLMObservation.mm:140-155 | joining the observers of a row, or starting its list, keeps every list well formed, of one row, and one list per row; only this observer is added |
| `Observation.RLMObservationInfo.Destroy` | Carthage/Checkouts/realm-cocoa/Realm/RLMObservation.mm:66-101 | a destroyed observer, head or not, listed or not, leaves exactly itself out of the lists, and all of them stay well formed and one per row |
| `Observation.ForEachReachesTheRow` | Carthage/Checkouts/realm-cocoa/Realm/RLMObservation.hpp:115-130 | whatever observer of a row it is called on, forEach reaches each present observer of that row once and no other observer |

## Left out

- Maker.ConstraintDescription.Perform: does not model `dividedBy` zero, whose infinite multiplier is not a real number.
- Maker.RunClosure: a closure that reads `.constraint` and then activates or updates it before the closure ends is not
  modelled; such constraints stay inactive and unchanged until the closure has run.
- RealmList.List.ReplaceSubrange: the new elements are a value, so a list assigned a slice of itself is not covered.
- UseCases.TeamsUseCasesImp.Subscribe: is about a completed subscription with unlimited demand; cancellation, back pressure
  and overlapping subscriptions are not modelled.
- Teams.TeamsRealmRepository.RunNext: assumes that commits succeed and that the repository is alive when its block runs.
- Observation.RLMObservationInfo.ForEach: records the visitor's calls; a visitor that changes the list is not covered.
- Observation.RLMObservationInfo.SetRow: rows keep their index; table changes that move or detach rows are not part of
  this model.
- Weak targets and superviews are assumed alive while they are used.
- Labels, source locations, descriptions and deprecated aliases, which no property depends on.
- The macOS branches.
- UIKit's own behaviour: solving, view hierarchy effects, and code that toggles an `NSLayoutConstraint` directly.
- `layoutConstraints` is assigned once, after the compile loop, and the back pointers right after it, instead of one by
  one inside the loop; nothing reads them in between.
- Priorities above 1000 in the priority theorems, IEEE rounding, and null dates.
- Realm threads, notifications, failing commits, schemas, queries, sync and migration.
- `RealmFactory`, networking, image loading, presenters, views and build scripts: input, output or plumbing.
