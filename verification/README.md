# Verified model of the admin service's flow designer and its neighbours

This project models the logic of the admin service of the queue system in Dafny 4.11 and proves properties of it.
`dafny verify dfyconfig.toml` checks all of it.

- `Sequences`, `Text`, `Decimal`: shared facts about lists, ASCII text and decimal numerals.
- `AutoLayout`, `LayoutGap`: the default layout of a ticket flow. An iterative depth-first search drops the edges that
  close a cycle, a queue relaxes what is left into ranks, and ranks become coordinates. `Retained` says what is kept,
  `RankIs` what a rank is, and a state is `Settled` when every start of a retained path into it is a source.
- `StateMachine`: the form of a ticket flow, its change signature, its wire mapping, its rules, and the reconciliation of
  the four fields that name states.
- `StateMachineFlow`: drawing a form as nodes and edges with Start and End markers, and reading a canvas back.
- `EditorModel`, `EditorSteps`, `EditorForms`, `Workflow`, `EditorFacts`: the visual editor as a class over the form,
  the canvas, the last emitted signature and the edge-id counter. `SettledEditor` is the invariant of every run.
- `SelfLoop`: the geometry of self-loops over exact numbers: waypoints, label anchor, rounded corners.
- `TvGrid`, `TvGridEditor`: the 12 by 20 grid of the TV display, with pointer drags.
- `LicenseKey`: activation keys and their check symbol.
- `Schedule`: cron expressions and times of day.
- `Polling`: the run counter of a poll and the generation counter of the system configuration.
- `Toasts`: the toast stack and its timers.

Where the code and its documentation differ, the model follows the code:

- `autoLayout` documents a rank as the longest path from a source. A state behind an unsettled one gets less:
  `LayoutGap.RankGap` gives the graph, `AutoLayout.RanksAreExact` says what the rank is for all states, and
  `AutoLayout.DocumentedRankExactly` which states have the documented one; every settled state does, and every state no
  source reaches keeps rank 0.
- A self-loop nobody routed is drawn right to top, while default sides mean right to left. So a loop routed right to left
  comes back right to top: `StateMachineFlow.LoopsAfterReload` says exactly which transitions keep their drawn sides.
- The target side of a made self-loop is documented as the next one clockwise; drawn, it is the next one
  counter-clockwise (right to top, top to left): `SelfLoop.MadeLoopsAreAdjacent`.
- In the standard mode the routing map is documented as empty. It is built from the draft, so it is empty exactly when
  the draft is routed by default: `StateMachine.SavedDefault` and `StateMachine.NothingRouted`.
- The two ways of renaming a state differ when an action leads to it: `StateMachine.TwoRenamePaths`.
- A link and a transition can share an edge id when names hold arrows: `EditorFacts.IdsCanClash` gives the form and
  `EditorFacts.DrawnIdsExactly` the condition.
- The check symbol catches every changed symbol, not every changed character: a look-alike reads as its symbol.
  `LicenseKey.EverySubstitutionIsCaught` says exactly which changes of the typed text are caught.
- An automatic marker on a machine without states cannot be placed: `Renderable`, and the failing case of
  `Workflow.Editor.OnDeleteState`.
- The rename guard looks at the nodes on the canvas only, so it would let the id of a hidden marker through. The panel
  upper-cases what is typed, and both marker ids have lower-case letters: `EditorFacts.RenameIsOkExactly` and
  `EditorForms.TypedIsNoMarker`.

Saving needs no hypothesis about `->` in names: a form that passes validation has pairwise different routing keys, because
the duplicate check compares those very keys (`StateMachine.ValidFormSurvivesSave`).

One call of an editor method stands for the handler, the parent's re-render with the emitted form, and the effect that
decides about a redraw. Fresh widget ids, the clock, the pointer and the answers of the server come in as parameters.

## Model

| member | source | states |
|---|---|---|
| AutoLayout.BuildGraph | services/admin-service/src/lib/state-machine.ts:563-584 | adjacency lists hold exactly the usable transitions in declared order (both ends known, no self-loop), and a count is zero exactly when nothing leads in |
| AutoLayout.StepDescends | services/admin-service/src/lib/state-machine.ts:597-615 | every turn of the search loop finds a new state or leaves fewer edges to look at, so the search ends on every graph |
| AutoLayout.SearchFrom | services/admin-service/src/lib/state-machine.ts:594-615 | the loop over one root computes what the step-by-step search computes: visited states and retained edges |
| AutoLayout.ClassifyEdges | services/admin-service/src/lib/state-machine.ts:586-616 | the loop over all roots computes the retained graph of the whole search |
| AutoLayout.StackIsPath | services/admin-service/src/lib/state-machine.ts:594-611 | the stack is at every moment a path of retained edges from any of its states to the top one |
| AutoLayout.StepKeeps | services/admin-service/src/lib/state-machine.ts:597-615 | one turn keeps the whole search invariant: bookkeeping, finishing order, and that each dropped edge closes a cycle |
| AutoLayout.SearchRetains | services/admin-service/src/lib/state-machine.ts:586-616 | for every graph the retained part has no cycle, and an edge is dropped exactly when its target already leads back to its source along retained edges |
| AutoLayout.OrderedIsAcyclic | services/admin-service/src/lib/state-machine.ts:586-616 | a graph whose edges all point at earlier finished states has no cycle |
| AutoLayout.RetainedGraphIsSound | services/admin-service/src/lib/state-machine.ts:563-616 | the same for the retained graph of a form: no cycle, and a maximal part of the usable edges |
| AutoLayout.CountIncoming | services/admin-service/src/lib/state-machine.ts:622-624 | every state is counted once per retained edge into it, duplicates included |
| AutoLayout.RelaxTargets | services/admin-service/src/lib/state-machine.ts:631-636 | one turn of the queue relaxes exactly the edges of one state and queues each target once all its edges are relaxed |
| AutoLayout.RelaxAll | services/admin-service/src/lib/state-machine.ts:629-637 | the queue loop ends on every input, and with distinct names the queue holds each state at most once and the ranks satisfy the longest-path equations |
| AutoLayout.AssignRanks | services/admin-service/src/lib/state-machine.ts:618-637 | ranks by relaxation from the states without incoming edges satisfy those equations |
| AutoLayout.QueuedIsSettled | services/admin-service/src/lib/state-machine.ts:618-637 | a state is dequeued exactly when every start of a retained path into it has no incoming usable edge |
| AutoLayout.RanksAreExact | services/admin-service/src/lib/state-machine.ts:618-637 | the rank of every state is the length of a longest retained path into it through dequeued states |
| AutoLayout.DocumentedRankExactly | services/admin-service/src/lib/state-machine.ts:539-544 | the rank of any state is the documented one exactly when a longest retained path from a source runs through settled states, and a state no source reaches keeps rank 0 |
| AutoLayout.RankIsSmall | services/admin-service/src/lib/state-machine.ts:618-637 | every rank is below the number of states |
| AutoLayout.RankGrows | services/admin-service/src/lib/state-machine.ts:618-637 | along a retained edge that leaves a settled state the rank goes up |
| AutoLayout.AllSettled | services/admin-service/src/lib/state-machine.ts:618-628 | all states are settled exactly when every start of the retained graph is a source |
| LayoutGap.RankGap | services/admin-service/src/lib/state-machine.ts:539-543 | a graph on any four names where the documented rank fails: a source reaches a state by two retained edges and its rank is 0 |
| AutoLayout.GroupByRank | services/admin-service/src/lib/state-machine.ts:640-646 | the buckets hold exactly the states of each rank in order of appearance |
| AutoLayout.PeerInOrder | services/admin-service/src/lib/state-machine.ts:640-646 | in the bucket of its rank a state comes after exactly those states of the rank that appear before it |
| AutoLayout.Place | services/admin-service/src/lib/state-machine.ts:647-652 | every state is placed once, in its last appearance: 240 to the right per rank and 120 down per state of its rank that appears before it |
| AutoLayout.PlacesExactly | services/admin-service/src/lib/state-machine.ts:647-652 | the place of the state at an index, in plain numbers: x is 240 times its rank, y is 120 times the number of earlier states of that rank |
| AutoLayout.PlacesAreInjective | services/admin-service/src/lib/state-machine.ts:639-653 | two states never share a position |
| AutoLayout.Layout | services/admin-service/src/lib/state-machine.ts:559-654 | the whole layout: every state at 240 times its rank and 120 times its place among its rank, places pairwise different, and exact ranks when the names are distinct |
| AutoLayout.ColumnsGoRight | services/admin-service/src/lib/state-machine.ts:529-530 | along a retained edge that leaves a settled state x grows by at least 240 |
| StateMachine.SignatureMeans | services/admin-service/src/lib/state-machine.ts:133-137 | two forms have the same signature exactly when states, positions, markers and source multisets agree and their transitions agree pair by pair in ends, label, effective sides, policy kind and, for going back, the finite count (0 when absent or no number) |
| StateMachine.DefaultExactlyBySignature | services/admin-service/src/lib/state-machine.ts:280-322 | a form is inferred to be the standard flow exactly when its signature is that of the standard form, that is when it shows the same graph with no policy, routing, position, link or pinned marker of its own |
| StateMachine.BuildEdgeRouting | services/admin-service/src/lib/state-machine.ts:439-449 | the routing map of a list of transitions: the last chosen sides under each key, default sides left out |
| StateMachine.RoutingFinds | services/admin-service/src/lib/state-machine.ts:405-449 | the routing map gives back the sides of every transition when transitions sharing a key agree |
| StateMachine.SaveThenLoad | services/admin-service/src/lib/state-machine.ts:337-449 | saving a custom form and loading it keeps the signature, and so the graph it stands for, exactly when transitions that share a routing key are drawn alike; actions survive, and of the descriptions those with a character that is no white space |
| StateMachine.SavedCustom | services/admin-service/src/lib/state-machine.ts:352-389 | what a custom machine sends: its states, every transition with ends, label and policy (none for keeping the order, a count only for going back), exactly the descriptions with a text to read, and layout, actions, markers and links as drafted |
| StateMachine.SavedDefault | services/admin-service/src/lib/state-machine.ts:337-351 | what the standard mode sends: the five states and five transitions of the standard flow, no policies and no descriptions, whatever the draft holds; the routing map is empty only if the draft is routed by default |
| StateMachine.NothingRouted | services/admin-service/src/lib/state-machine.ts:439-449 | the routing map is empty exactly when every transition leaves to the right and enters from the left |
| StateMachine.ValidFormSurvivesSave | services/admin-service/src/lib/state-machine.ts:337-449 | a form that passes validation always keeps its signature through a save and a load |
| StateMachine.ValidateCustom | services/admin-service/src/lib/state-machine.ts:667-708 | reports exactly the faults of the form, each once |
| StateMachine.CountIsNatural | services/admin-service/src/lib/state-machine.ts:698 | a count is accepted exactly when it is a natural number |
| StateMachine.RulesAreFaultless | services/admin-service/src/lib/state-machine.ts:667-708 | nothing is reported exactly when the declarative rules hold |
| StateMachine.ReconcileStateNameRefs | services/admin-service/src/lib/state-machine.ts:931-980 | the loops compute the reconciled references: live keys, live action targets, live and duplicate-free source lists; of two keys that the rename merges, one entry stays |
| StateMachine.ReconciledIsLive | services/admin-service/src/lib/state-machine.ts:931-980 | after reconciling, every name in the four fields is a live state, whatever went in |
| StateMachine.RekeyedIsLive | services/admin-service/src/lib/state-machine.ts:931-980 | the same when the rename merges two keys, whichever entry stays |
| StateMachine.ReconcileNothing | services/admin-service/src/lib/state-machine.ts:931-980 | with every name live and no rename, nothing changes |
| StateMachine.RenameLosesNothing | services/admin-service/src/lib/state-machine.ts:931-980 | a rename to a fresh name replaces the name wherever it occurs in the four fields and loses no entry |
| StateMachine.RenameIsUndone | services/admin-service/src/lib/state-machine.ts:931-980 | the reverse rename restores the four fields |
| StateMachine.DeleteDropsExactly | services/admin-service/src/lib/state-machine.ts:931-980 | a delete drops exactly the keys, list entries and actions that name the deleted state |
| StateMachine.TwoRenamePaths | services/admin-service/src/lib/state-machine.ts:1023-1069 | the form editor's rename agrees with the canvas one on states, transitions, places, descriptions and sources, and on the actions exactly when no action leads to the renamed state |
| StateMachine.RenamePathsDiffer | services/admin-service/src/lib/state-machine.ts:1023-1069 | an input on which the two rename paths differ: a state with an action that leads to itself |
| StateMachine.TwoDeletePaths | services/admin-service/src/lib/state-machine.ts:1075-1110 | the form editor's delete agrees with the canvas one exactly when no remaining action leads to the removed state |
| StateMachine.DeletePathsDiffer | services/admin-service/src/lib/state-machine.ts:1075-1110 | an input on which the two delete paths differ |
| StateMachineFlow.DeriveTerminalMarkers | services/admin-service/src/lib/state-machine-flow.ts:454-560 | the loops build the two markers and exactly one arrow per linked state that has a place; Start stands 240 left of the leftmost linked state, End 240 right of the rightmost, each beside all states when it has no link, at half the height of the diagram; without any place they stand left and right of the origin |
| StateMachineFlow.PlacesBeside | services/admin-service/src/lib/state-machine-flow.ts:482-507 | the marker places computed from bounds are the extremes of the linked states and the middle between the highest and the lowest state |
| StateMachineFlow.LinksMean | services/admin-service/src/lib/state-machine-flow.ts:527-560 | the derived edges are exactly the arrows from Start to a linked placed state and from one to End, leaving to the right and entering from the left |
| StateMachineFlow.Draw | services/admin-service/src/lib/state-machine-flow.ts:597-660 | the canvas of a form: states in order at their stored place, else the one at hand, else their place in an automatic layout without collisions; visible markers pinned or beside the states; nothing exactly when an automatic marker has no state to stand beside |
| StateMachineFlow.DrawnNodesStand | services/admin-service/src/lib/state-machine-flow.ts:354-359 | where every node of a drawn canvas stands, states and markers |
| StateMachineFlow.FreshPlacesDiffer | services/admin-service/src/lib/state-machine-flow.ts:354-359 | with no place known before, different states are drawn at different places |
| StateMachineFlow.ReadCanvas | services/admin-service/src/lib/state-machine-flow.ts:672-724 | the loop over the nodes reads the graph off a canvas |
| StateMachineFlow.DrawnReadsBack | services/admin-service/src/lib/state-machine-flow.ts:597-724 | reading a drawn form gives back states, endpoints, labels, policies, chosen sides, positions and markers; only sides nobody chose are filled in |
| StateMachineFlow.SecondPassChangesNothing | services/admin-service/src/lib/state-machine-flow.ts:349-377 | drawing what was read and reading it again gives the same graph |
| StateMachineFlow.LoopsAfterReload | services/admin-service/src/lib/state-machine-flow.ts:916-936 | the drawn sides of a transition survive a save and a load exactly when it is no self-loop, or it has a target side and its pair is not right to left, or it has none and leaves to the right |
| StateMachineFlow.LoopComesBackOtherwise | services/admin-service/src/lib/state-machine-flow.ts:916-936 | an input where they do not: a self-loop routed right to left is drawn right to top after a save and a load |
| StateMachineFlow.NextStateName | services/admin-service/src/lib/state-machine-flow.ts:751-756 | ends with the numbered name of least number that is neither taken nor a standard name |
| EditorModel.MintIsFresh | services/admin-service/src/components/StateMachineWorkflow.tsx:175-176 | a minted edge id differs from every id drawn or minted before |
| EditorModel.MarkerEdgesAre | services/admin-service/src/lib/state-machine-flow.ts:597-660 | with no state under a marker's id, the marker edges are one per live source of a visible marker |
| EditorModel.DrawnShows | services/admin-service/src/lib/state-machine-flow.ts:597-660 | a canvas drawn from a well-formed form shows it: states in order, transitions, markers and exactly its link edges |
| EditorModel.FreshCanvas | services/admin-service/src/components/StateMachineWorkflow.tsx:155-170 | every well-formed form that can be drawn gives a settled editor, so the invariant of the runs is met at the start |
| EditorModel.SameSignatureShows | services/admin-service/src/components/StateMachineWorkflow.tsx:242-266 | a form with the same signature is shown by the same canvas, so skipping the redraw is sound |
| EditorModel.CommitFormOk | services/admin-service/src/components/StateMachineWorkflow.tsx:283-354 | the form of a commit is well-formed whatever the old references were |
| EditorModel.CommittedShows | services/admin-service/src/components/StateMachineWorkflow.tsx:283-354 | the canvas after a commit shows the emitted form and reads exactly as it |
| EditorSteps.Connected | services/admin-service/src/components/StateMachineWorkflow.tsx:426-504 | appending an edge adds one transition to the drawing and changes nothing else |
| EditorSteps.TransitionDropped | services/admin-service/src/components/StateMachineWorkflow.tsx:717-722 | dropping an edge removes the one transition it draws |
| EditorSteps.StateAdded | services/admin-service/src/components/StateMachineWorkflow.tsx:629-642 | appending a node adds one state with its place and changes nothing else |
| EditorSteps.StateDeleted | services/admin-service/src/components/StateMachineWorkflow.tsx:687-696 | removing a node and its edges removes the state, its transitions and every reference to it, and nothing else |
| EditorSteps.StateRenamed | services/admin-service/src/components/StateMachineWorkflow.tsx:651-686 | renaming a node and edge ends renames the state in every field and loses nothing |
| EditorSteps.NodesDragged | services/admin-service/src/components/StateMachineWorkflow.tsx:399-421 | a drag moves the dragged states, pins the dragged visible markers and changes nothing else |
| EditorForms.GuardSeesPairs | services/admin-service/src/lib/state-machine-flow.ts:772-784 | the duplicate guard on the canvas answers for the form |
| EditorForms.EndLinksShown | services/admin-service/src/lib/state-machine-flow.ts:799-803 | the End guard on the canvas answers for the form's end sources |
| EditorForms.StartLinksShown | services/admin-service/src/lib/state-machine-flow.ts:814-818 | the Start guard on the canvas answers for the form's start sources |
| EditorForms.NodeIds | services/admin-service/src/components/StateMachineWorkflow.tsx:651-672 | the node ids of a settled canvas are the states and the visible markers |
| EditorForms.ReroutePatched | services/admin-service/src/lib/state-machine-flow.ts:950-966 | re-pointing an edge keeps a chosen routing and swaps a default one for the default of the new shape |
| EditorForms.ReloadedOk | services/admin-service/src/lib/state-machine.ts:337-449 | a well-formed custom form comes back from a save and a load well-formed, and can be drawn when it could before |
| EditorForms.TypedIsNoMarker | services/admin-service/src/components/StateMachineWorkflowProperties.tsx:704 | an upper-cased name is never a marker id |
| Workflow.Editor.constructor | services/admin-service/src/components/StateMachineWorkflow.tsx:155-170 | a fresh editor over a well-formed form is settled and drawn from that form; without stored places the states stand in the automatic layout |
| Workflow.Editor.Rerender | services/admin-service/src/components/StateMachineWorkflow.tsx:242-266 | the effect redraws exactly when the signature is not the one emitted last; a redraw puts every state at its stored place, else where it stood, else at its automatic one; otherwise the canvas stays |
| Workflow.Editor.Settle | services/admin-service/src/components/StateMachineWorkflow.tsx:242-266 | a value from outside is settled, redrawn exactly when it differs in the graph it shows (policies and their counts included), with known places kept |
| Workflow.Editor.SaveAndReload | services/admin-service/src/components/StateMachineWorkflow.tsx:235-266 | the form saved, loaded and handed back leaves the canvas alone exactly when transitions that share a routing key are drawn alike, so always for a form that passes validation |
| Workflow.Editor.Lift | services/admin-service/src/components/StateMachineWorkflow.tsx:364-370 | a stamped form-only edit never touches the canvas |
| Workflow.Editor.Commit | services/admin-service/src/components/StateMachineWorkflow.tsx:283-354 | a commit emits the form read off the mutated canvas and leaves a canvas that reads as that form and holds every state node and every transition edge of the mutated one, ids included: nothing is redrawn; it fails only when an automatic marker has no state |
| Workflow.Editor.AddEdge | services/admin-service/src/components/StateMachineWorkflow.tsx:477-504 | a new edge adds one transition with the given sides under the minted id, and every other transition edge stays as it is |
| Workflow.Editor.OnConnect | services/admin-service/src/components/StateMachineWorkflow.tsx:426-504 | a drawn connection becomes an end source, a start source or a transition under a new id, or is ignored, exactly by the stated cases |
| Workflow.Editor.OnConnectEnd | services/admin-service/src/components/StateMachineWorkflow.tsx:578-615 | the end of a drag draws exactly the self-loop that was decided, or reports why not and changes nothing |
| Workflow.Editor.OnAddTransitionFrom | services/admin-service/src/components/StateMachineWorkflow.tsx:769-790 | connects to the first state in order that is not a target yet, and does nothing when all are |
| Workflow.Editor.OnEditTransitionLabel | services/admin-service/src/components/StateMachineWorkflow.tsx:697-702 | sets the label of the one transition the edge draws; all edge ids stay |
| Workflow.Editor.OnEditTransitionRequeuePolicy | services/admin-service/src/components/StateMachineWorkflow.tsx:711-716 | sets the policy of the one transition the edge draws; all edge ids stay |
| Workflow.Editor.OnDeleteTransition | services/admin-service/src/components/StateMachineWorkflow.tsx:717-722 | removes one transition, never the last one; the other edges stay as they are |
| Workflow.Editor.OnRerouteTransition | services/admin-service/src/components/StateMachineWorkflow.tsx:728-757 | moves the ends of one transition unless one has that pair; all edge ids stay, and the id of a marker edge moves nothing |
| Workflow.Editor.AddStateAt | services/admin-service/src/components/StateMachineWorkflow.tsx:629-642 | adds a standard state unless one like it is there, or a state under the next free name |
| Workflow.Editor.OnRenameState | services/admin-service/src/components/StateMachineWorkflow.tsx:651-686 | renames a state everywhere and keeps all edge ids, or ignores a blank or used name |
| Workflow.Editor.OnDeleteState | services/admin-service/src/components/StateMachineWorkflow.tsx:687-696 | deletes a state with everything that names it; fails exactly when the last state goes while a marker is automatic |
| Workflow.LastDeleteFails | services/admin-service/src/components/StateMachineWorkflow.tsx:687-696 | an input where it fails: the only state of a machine with automatic markers |
| Workflow.Editor.OnNodeDragStop | services/admin-service/src/components/StateMachineWorkflow.tsx:399-421 | places of dragged states reach the form and dragged markers are pinned |
| Workflow.Editor.OnAddNodeAction | services/admin-service/src/components/StateMachineWorkflow.tsx:796-801 | appends one action that leads to the first other state, or to the state itself when it is the only one; the canvas stays |
| Workflow.Editor.OnDeleteNodeAction | services/admin-service/src/components/StateMachineWorkflow.tsx:802-806 | removes the action at an index, or none past the end; the canvas stays |
| Workflow.Editor.OnEditNodeAction | services/admin-service/src/components/StateMachineWorkflow.tsx:807-811 | changes the action at an index, or none past the end; the canvas stays |
| Workflow.Editor.OnEditStateDescription | services/admin-service/src/components/StateMachineWorkflow.tsx:822-826 | sets one description as typed or, without a character that is no white space, removes it; the canvas stays |
| Workflow.Editor.SetTerminal | services/admin-service/src/components/StateMachineWorkflow.tsx:833-841 | shows, pins or hides a marker; states stay where they stand |
| Workflow.Editor.OnRemoveEndSource | services/admin-service/src/components/StateMachineWorkflow.tsx:848-850 | removes one end source and redraws in place |
| Workflow.Editor.OnRemoveStartSource | services/admin-service/src/components/StateMachineWorkflow.tsx:856-858 | removes one start source and redraws in place |
| Workflow.Editor.UseDefaultFlow | services/admin-service/src/components/StateMachineWorkflow.tsx:905-914 | switches to the standard form |
| Workflow.Editor.UseCustomFlow | services/admin-service/src/components/StateMachineWorkflow.tsx:915-924 | changes only the mode, without a redraw |
| Workflow.Editor.Handle | services/admin-service/src/components/StateMachineWorkflow.tsx:426-861 | every event leaves the editor settled |
| Workflow.Editor.Run | services/admin-service/src/components/StateMachineWorkflow.tsx:155-861 | every run of events, in any order, keeps the editor settled: distinct non-blank names, live ends, no repeated pair, distinct ids, live references, and a canvas that shows the form |
| EditorFacts.CanvasRefinesForm | services/admin-service/src/components/StateMachineWorkflow.tsx:242-370 | a settled canvas reads as the form: states, markers, places, and each transition with its ends, label, policy and sides, up to the drawn default of a self-loop; its marker edges are exactly the form's links |
| EditorFacts.EdgeIdsDistinct | services/admin-service/src/components/StateMachineWorkflow.tsx:167-176 | with no arrow in a start source, or no Start marker, all edge ids of a settled canvas are pairwise different, marker edges included |
| EditorFacts.DrawnIdsExactly | services/admin-service/src/lib/state-machine-flow.ts:597-660 | on a canvas just drawn all edge ids differ exactly when no start source is named like the rest of the id of an edge out of a state whose name begins with the id of the Start marker and an arrow |
| EditorFacts.IdsCanClash | services/admin-service/src/lib/state-machine-flow.ts:529-540 | a form that passes validation on which a transition and a start link share an id |
| EditorFacts.OnlyLabelsAndPolicies | services/admin-service/src/lib/state-machine.ts:667-708 | a non-empty draft of the editor without arrows in its names can only break label and policy rules |
| EditorFacts.RenameIsOkExactly | services/admin-service/src/components/StateMachineWorkflow.tsx:651-686 | a rename to a fresh non-blank name keeps the draft well-formed exactly when the name is no marker id, which the guard misses only for a hidden marker |
| EditorFacts.DragShowsWhatConnects | services/admin-service/src/components/StateMachineWorkflow.tsx:516-554 | a drop is shown as valid during the drag exactly when dropping there changes the form |
| EditorFacts.DropsAreAnswered | services/admin-service/src/lib/state-machine-flow.ts:846-1062 | on a settled canvas the end of every drag is answered by what the form holds: a self-loop where there is none, the one refusal that is true of the form, or nothing |
| SelfLoop.PairsByNormals | services/admin-service/src/lib/state-machine-flow.ts:1288-1289 | the product of two normals tells adjacent, equal and opposite sides apart |
| SelfLoop.EveryLoopIsGood | services/admin-service/src/lib/state-machine-flow.ts:1263-1322 | for all 16 pairs and any measured card every leg follows an axis, stubs stay outside their face and all other legs are `offset` clear |
| SelfLoop.StubsArePerpendicular | services/admin-service/src/lib/state-machine-flow.ts:1263-1322 | the loop leaves and enters along the normals of its faces, by `offset` (twice that on entry for equal sides) |
| SelfLoop.LoopsAvoidTheCard | services/admin-service/src/lib/state-machine-flow.ts:1263-1322 | no point of the loop lies inside the card, and off the stubs every point is `offset` clear of it |
| SelfLoop.AdjacentNeedsNoSize | services/admin-service/src/lib/state-machine-flow.ts:1288-1294 | between adjacent sides the loop does not depend on the card size |
| SelfLoop.OppositeCrossesAtOffset | services/admin-service/src/lib/state-machine-flow.ts:1295-1319 | between opposite sides the crossing run lies exactly `offset` beyond the face it swings around |
| SelfLoop.MadeLoopsAreAdjacent | services/admin-service/src/lib/state-machine-flow.ts:893-936 | every loop drawn by hand or by default leaves by the dragged side, or to the right, and comes back into that side turned by a quarter, which is adjacent |
| SelfLoop.PolylineMidpoint | services/admin-service/src/lib/state-machine-flow.ts:1181-1205 | the returned point lies on the path at exactly half its length |
| SelfLoop.LabelIsClear | services/admin-service/src/lib/state-machine-flow.ts:1170-1205 | the middle of a measured loop is at least `offset` away from the card |
| SelfLoop.LoopsHaveLength | services/admin-service/src/lib/state-machine-flow.ts:1181-1205 | every measured loop follows the axes and has positive length |
| SelfLoop.RoundedOrthogonalPath | services/admin-service/src/lib/state-machine-flow.ts:1140-1168 | the commands start at the first point, end at the last, and follow the polyline in order: every line goes forward on its leg, every curve bends at its corner from one leg to the next at equal distances |
| SelfLoop.RadiusIsGreatest | services/admin-service/src/lib/state-machine-flow.ts:1148-1152 | the radius of a corner is the greatest that the given radius and half of either leg allow |
| SelfLoop.RoundedExactly | services/admin-service/src/lib/state-machine-flow.ts:1147-1156 | a corner is rounded exactly where two legs of some length meet at a right angle |
| SelfLoop.FollowersStay | services/admin-service/src/lib/state-machine-flow.ts:1140-1168 | what follows a polyline ends each command on one of its legs and bends only at its points |
| SelfLoop.RoundedLoopAvoidsTheCard | services/admin-service/src/lib/state-machine-flow.ts:1140-1168 | no command of the rounded loop of a measured card ends or bends inside the card |
| SelfLoop.FilletOnLegs | services/admin-service/src/lib/state-machine-flow.ts:1147-1164 | a fillet begins and ends on its two legs, equally far from the corner, at most half of either leg |
| SelfLoop.FilletsDoNotOverlap | services/admin-service/src/lib/state-machine-flow.ts:1147-1164 | on a shared leg the two fillets and the straight part between them add up to the leg without overlap |
| TvGrid.OverlapIsSharedCell | services/admin-service/src/lib/tv-grid-layout.ts:172-179 | two rectangles overlap exactly when they share a grid cell |
| TvGrid.LayoutFits | services/admin-service/src/lib/tv-grid-layout.ts:172-179 | every valid layout covers at most 240 cells and has at most 240 widgets |
| TvGrid.HasOverlap | services/admin-service/src/lib/tv-grid-layout.ts:185-195 | true exactly when a widget other than the excepted one overlaps the rectangle |
| TvGrid.HasInternalOverlap | services/admin-service/src/lib/tv-grid-layout.ts:305-311 | true exactly when two widgets overlap |
| TvGrid.FindFreeSpot | services/admin-service/src/lib/tv-grid-layout.ts:202-217 | the first fitting spot row by row, and none only when the size fits nowhere |
| TvGrid.AddWidget | services/admin-service/src/lib/tv-grid-layout.ts:226-252 | places a widget of the default size at the wanted spot if free, else at the first free one; fails exactly when the size fits nowhere; keeps validity |
| TvGrid.MoveWidget | services/admin-service/src/lib/tv-grid-layout.ts:260-269 | moves one widget into the grid if the target is free, else changes nothing; keeps validity |
| TvGrid.TargetsAreNearest | services/admin-service/src/lib/tv-grid-layout.ts:260-285 | a move keeps the size and goes to the nearest column and row in the grid; a resize keeps the corner and takes the nearest size in the grid |
| TvGrid.PlaceChangesOne | services/admin-service/src/lib/tv-grid-layout.ts:260-285 | a commit changes the rectangle of one widget and nothing else |
| TvGrid.WantedIsNearest | services/admin-service/src/lib/tv-grid-layout.ts:226-252 | a wanted spot is moved to the nearest column and row where the size fits |
| TvGrid.ResizeWidget | services/admin-service/src/lib/tv-grid-layout.ts:276-285 | resizes one widget within the grid if the target is free, else changes nothing; keeps validity |
| TvGrid.RemoveKeepsValid | services/admin-service/src/lib/tv-grid-layout.ts:290-293 | removing takes out one widget or nothing and keeps validity |
| TvGrid.FaultlessIsReadable | services/admin-service/src/lib/tv-grid-layout.ts:75-120 | no item is at fault exactly when all read as widgets in the grid with distinct ids |
| TvGrid.ValidateTvGridLayout | services/admin-service/src/lib/tv-grid-layout.ts:68-126 | reports exactly the faults of the items, or the overlap; nothing exactly for a valid layout |
| TvGrid.CoerceTvGridLayout | services/admin-service/src/lib/tv-grid-layout.ts:140-157 | a stored layout is kept when valid and replaced by the valid default otherwise |
| TvGridEditor.GridEditor.BeginDrag | services/admin-service/src/lib/use-grid-dnd.ts:97-119 | one drag at a time, primary button only, starting from a truthful preview |
| TvGridEditor.GridEditor.OnPointerMove | services/admin-service/src/lib/use-grid-dnd.ts:131-183 | the preview follows the pointer inside the grid and is valid exactly when free |
| TvGridEditor.ShownUnderPointer | services/admin-service/src/lib/use-grid-dnd.ts:143-160 | during a move the preview stands as near as it fits to the cell under the pointer, the column by x and the row by y |
| TvGridEditor.ResizedByDistance | services/admin-service/src/lib/use-grid-dnd.ts:161-181 | during a resize the size changes by the dragged distance rounded to whole cells, kept in the grid |
| TvGridEditor.GridEditor.OnPointerUp | services/admin-service/src/lib/use-grid-dnd.ts:185-205 | a drop does what the preview says through the checked move or resize, and ends the drag |
| TvGridEditor.GridEditor.Run | services/admin-service/src/lib/use-grid-dnd.ts:97-205 | after every run of edits and drags the layout is valid and fits the grid |
| LicenseKey.NormalizeLicenseKey | services/admin-service/src/lib/license-key.ts:34-41 | the loop computes the normalised symbols |
| LicenseKey.NormalizeTwice | services/admin-service/src/lib/license-key.ts:34-41 | normalising again changes nothing |
| LicenseKey.LettersRead | services/admin-service/src/lib/license-key.ts:34-41 | what every character contributes: I and L a 1, O a 0, other letters in upper case and digits themselves, anything else nothing |
| LicenseKey.FormatLicenseKey | services/admin-service/src/lib/license-key.ts:44-51 | the first twenty symbols in groups of five joined by hyphens |
| LicenseKey.FormatReadsBack | services/admin-service/src/lib/license-key.ts:44-51 | the displayed form reads back as the typed symbols, cut to the first twenty |
| LicenseKey.HyphensEverySix | services/admin-service/src/lib/license-key.ts:44-51 | every sixth character of the displayed form is a hyphen and the others are the symbols in order |
| LicenseKey.ValueIsPlace | services/admin-service/src/lib/license-key.ts:20 | the value of a symbol is its place in the alphabet |
| LicenseKey.CheckSymbol | services/admin-service/src/lib/license-key.ts:58-64 | the check symbol has the value of the weighted sum modulo 32 |
| LicenseKey.ZerosAreAKey | services/admin-service/src/lib/license-key.ts:58-64 | zeros have the check symbol 0 |
| LicenseKey.SumOfOne | services/admin-service/src/lib/license-key.ts:58-64 | one symbol among zeros weighs its value times the odd weight of its place |
| LicenseKey.IsLicenseKeyValid | services/admin-service/src/lib/license-key.ts:67-74 | true exactly for twenty alphabet symbols whose last agrees with the weighted sum |
| LicenseKey.EverySubstitutionIsCaught | services/admin-service/src/lib/license-key.ts:34-74 | of the text typed for a valid key, changing any one character keeps it valid exactly when the old and the new one read as the same symbol, or both as none |
| LicenseKey.LookAlikesPass | services/admin-service/src/lib/license-key.ts:22-23 | a look-alike typed for its symbol keeps a valid key valid |
| LicenseKey.SwapsUnnoticed | services/admin-service/src/lib/license-key.ts:58-64 | in the text typed for a valid key, swapping two different payload symbols of values a and b at places i and j goes unnoticed exactly when (a - b)(i - j) is a multiple of 16 |
| LicenseKey.NeighbourSwaps | services/admin-service/src/lib/license-key.ts:58-74 | in the text typed for a valid key, swapping two different neighbouring symbols, the check symbol included, goes unnoticed exactly when their values differ by 16 |
| Schedule.PartIsGrammar | services/admin-service/src/lib/cron.ts:42-67 | the scan for step and range marks accepts exactly the grammar of one part |
| Schedule.ValidField | services/admin-service/src/lib/cron.ts:40-70 | true exactly when every part of the field is in the grammar and in range |
| Schedule.SplitJoins | services/admin-service/src/lib/cron.ts:42 | splitting a field loses nothing: the pieces hold no comma and joined by commas give it back |
| Schedule.SplitSpaced | services/admin-service/src/lib/cron.ts:75 | splitting at white space loses nothing but the white space |
| Text.TrimTakesSpace | services/admin-service/src/lib/cron.ts:73 | trimming takes white space off both ends and stops at the first other character |
| Text.TrimFinds | services/admin-service/src/lib/time.ts:26 | a text with white space around it trims to itself |
| Schedule.ValidateCronExpression | services/admin-service/src/lib/cron.ts:72-85 | nothing is reported exactly for five valid fields; otherwise the first fault is |
| Schedule.TimesMakeCrons | services/admin-service/src/lib/daily-reset.ts:26-33 | any text gives a valid cron, which reads back as the time of the text or midnight |
| Schedule.ReadsTimesExactly | services/admin-service/src/lib/daily-reset.ts:27-31 | a time is read exactly when it is H:M in one or two digits each up to 23:59, and as what it says |
| Schedule.ShownInTwoDigits | services/admin-service/src/lib/daily-reset.ts:50 | a time is shown as HH:MM, two digits each |
| Schedule.EveryTimeIsRead | services/admin-service/src/lib/time.ts:25-32 | every such text is read, with white space around it; the time field takes it exactly when the minute has two digits |
| Schedule.ReadsCronsExactly | services/admin-service/src/lib/daily-reset.ts:42-51 | a cron is read as a daily time exactly when it is a minute and an hour in range and three stars |
| Schedule.TimeThereAndBack | services/admin-service/src/lib/time.ts:25-32 | a complete time survives the way into the cron and back |
| Schedule.CronThereAndBack | services/admin-service/src/lib/daily-reset.ts:42-51 | a cron read as a time is valid, shows as a complete time and is printed back with the same minute and hour |
| Schedule.ReadCronIsValid | services/admin-service/src/lib/daily-reset.ts:42-51 | whatever is read as a daily time is a valid cron |
| Polling.Poll.constructor | services/admin-service/src/lib/use-poll.ts:50-107 | mounting starts the first run and one interval when enabled |
| Polling.Poll.OnSuccess | services/admin-service/src/lib/use-poll.ts:74-80 | a result is applied, and its time noted, exactly when mounted and no newer run has started |
| Polling.Poll.OnFailure | services/admin-service/src/lib/use-poll.ts:82-86 | a failure is shown under the same guard and keeps the last result |
| Polling.Poll.OnHide | services/admin-service/src/lib/use-poll.ts:117-122 | hiding stops the one interval |
| Polling.Poll.OnReveal | services/admin-service/src/lib/use-poll.ts:123-127 | coming back fetches once and resumes unless the interval never stopped |
| Polling.Poll.Apply | services/admin-service/src/lib/use-poll.ts:68-135 | one event: applied runs only grow, only the newest run is applied, nothing changes after an unmount |
| Polling.Poll.Run | services/admin-service/src/lib/use-poll.ts:68-135 | every interleaving: applied run ids strictly increase, at most one interval is live, data once there stays |
| Polling.SystemConfig.OnResolve | services/admin-service/src/config/useSystemConfig.ts:60-63 | a load is applied exactly when it is of the current generation |
| Polling.SystemConfig.OnReject | services/admin-service/src/config/useSystemConfig.ts:64-71 | a failed load of the current generation is flagged and keeps the last configuration |
| Polling.SystemConfig.Run | services/admin-service/src/config/useSystemConfig.ts:55-81 | every interleaving: loads applied in order, configuration once there stays, and while mounted loading holds exactly when the current load is out |
| Polling.SystemConfig.RunAfterLeaving | services/admin-service/src/config/useSystemConfig.ts:74-81 | after an unmount no late answer changes anything |
| Polling.Answered | services/admin-service/src/lib/use-poll.ts:68-88 | an answer leaves the open and applied requests in order; one to the newest request may be applied |
| Toasts.ToastStack.ShowToast | services/admin-service/src/toast/useToastStack.ts:83-119 | the stack becomes its newest three with the new toast last, and timers stay exactly those of visible expiring toasts |
| Toasts.ToastStack.Evict | services/admin-service/src/toast/useToastStack.ts:99-102 | the loop drops all but the newest three toasts, each with its timer |
| Toasts.ToastStack.DismissToast | services/admin-service/src/toast/useToastStack.ts:69-75 | takes away exactly that toast and its timer, and nothing when it is not visible |
| Toasts.ToastStack.FireTimer | services/admin-service/src/toast/useToastStack.ts:108-115 | a timer that runs out takes away exactly its one visible toast |
| Toasts.ToastStack.ClearAll | services/admin-service/src/toast/useToastStack.ts:77-81 | takes away all toasts and timers |
| Toasts.ErrorsStay | services/admin-service/src/toast/useToastStack.ts:85-92 | without a duration of its own a toast goes away after five seconds, unless it is an error |
| Toasts.ToastStack.Run | services/admin-service/src/toast/useToastStack.ts:49-120 | every run keeps at most three toasts with rising ids, timers exactly for visible expiring ones, and every toast shown is visible, was taken away while visible, or was followed by three newer ones |
| Toasts.StillAccounted | services/admin-service/src/toast/useToastStack.ts:94-103 | an evicted toast was followed by three newer ones |
| Toasts.RemoveOk | services/admin-service/src/toast/useToastStack.ts:69-75 | taking a toast away keeps ids rising and timers exact |

## Left out

- React rendering, styling, focus and accessibility, and what the canvas library does inside; drags and drops arrive as events with node and handle ids.
- Selection, the double-tap guard of the add buttons, positions during a drag before it ends, edge arrow styles, and the descriptions shown on the cards.
- Handlers that run on state from before the last settled step (stale closures).
- The Indonesian texts: faults and refusals are enumerations. Signatures are tuples rather than JSON text; the sorted lists in them are multisets.
- Names inherited by JavaScript objects, such as `constructor`, as keys of the name-keyed records; records are finite maps.
- Text outside ASCII: upper-casing, trimming and digits are those of ASCII.
- Floating-point rounding: positions, distances and grid cells are computed over exact numbers.
- The form editor's list edits (add, update and remove a transition, add a state), missing standard states and derived descriptions: each is one expression over the form.
- The server, its own value objects and its checks; a save and a load are the client's two mappings.
- Clearance of a self-loop on a card whose size is not known: the fallback span is a documented guess.
- Non-numeric or non-integer pointer cells in the grid, and the random source of widget ids.
- A poll whose `enabled` option or interval changes while it is mounted.
- Charts, printer, speech, theme and brand settings, authentication and the HTTP client.
- Workflow.Editor.OnRenameState: requires that the new name is no marker id, because its only caller upper-cases what is typed; EditorFacts.RenameIsOkExactly states the exact condition without that.
- Workflow.Editor.SetTerminal: requires a state when the marker becomes automatic, because drawing throws otherwise.
- Workflow.Editor.OnRerouteTransition: requires that both ends are states, because the panel offers states only.
- Workflow.Editor.OnEditNodeAction: requires a live target, because the panel offers live states.
- Workflow.Editor.Commit: requires that a rename does not merge two keys; the guard of `OnRenameState` sees to it.
- StateMachine.ReconcileStateNameRefs: does not say which of two merged entries stays, because that depends on the insertion order of the record.
- StateMachineFlow.DeriveTerminalMarkers: requires that only states have places, because its only caller collects them from the state nodes.
- EditorFacts.EdgeIdsDistinct: goes one way only on a canvas with a history, because an edge id keeps the names of when it was drawn.
- AutoLayout.Layout: does not state exact ranks for repeated names, because repeated names share one rank and the relaxation counts their edges twice.
- SelfLoop.PolylineMidpoint: requires legs along the axes, because every self-loop has only such legs and a slanted leg has an irrational length.
- Schedule.ValidField: does not model that numerals beyond 2^53 are rounded when read.
