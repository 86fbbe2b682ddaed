# A verified model of KEDR-COI and of the MiST engine

KEDR-COI intercepts the operations of kernel objects: a *normal* instrumentor replaces function
pointers in operation structs, in place or in a private copy whose address is put into the object,
and any number of *foreign* (factory) instrumentors stack further replacements on the same
structs. MiST is the template engine of its code generator. This project models both in Dafny and
proves what they are for.

## Structure

The instrumentation engine is described twice. On values (`Layers`, `Engine`, `Operations`,
`Dispatch`, `Runs`, `Systems`) a replaced struct is what a stack of replacement lists makes of the
saved original, and every call is a function from state to state. The classes of `Memory` and
`Instrumentors` do what the code does: they patch slots one by one, count references, and keep
hash tables, watch records and the global table; each method is proved to follow its function and
to keep counts exact and tables in agreement. Every call runs under one lock, so a run is a
sequence of atomic steps, with assignments by the kernel to operations fields in between.

- `Layers`: one slot of a replaced struct; attaching, detaching, normal and chained operation.
- `Engine`: idatas, tables, ownership; creation, destruction, layers; the invariant.
- `Operations`: watch, forget, foreign watch and forget.
- `Dispatch`: what the replacement functions are told (get_orig_operation, bind), and where a call
  ends.
- `Runs`: what each call does to the field it works on. `Real` is what a field stands for: the
  original of a replaced struct, anything else itself.
- `Examples`: short runs from the start that end where one would not expect it.
- `Systems`: several instrumentors over one memory, whole runs, restoration.
- `Sharing`: several instrumentor objects over one memory.
- `Interception`: what an intermediate operation is told, from engine and payloads together.
- `HashTable`: the resizable table with its slow path, and the order of elements with one key.
- `Payloads`, `Interceptors`: which operations are intercepted how, and start and stop.
- `MistStrings`, `MistTokens`, `MistTemplates`, `MistParser`, `MistSource`, `MistValues`,
  `StringMap`: the template engine from source string to values. `MistSource` is the way back: how
  a template is written, and that it is read as what it was.
- `MistMeaning`: what templates mean, and the evaluation of a group as a function (`Run`);
  `MistLaws`: the same without its definitions; `MistLazy`: what is evaluated; `MistWalk`: when it
  fails; `MistEval`: the evaluator that the code has.

## Assumptions about the environment

- Replacement functions are pairwise distinct and never null; a replacement list has one entry per
  offset at most, within the struct (`Engine.WfConfig`). Before the first call memory holds none
  of them (`Systems.StartSysInv`); that it never does but where the engine put them is proved.
- Nobody else writes operation structs, a field that a call is made on holds null or a struct of
  the size that the instrumentor is for, and the kernel assigns to a field no address of a copy
  that the engine made (`Systems.CmdOk`).
- A fresh allocation is neither a struct nor a key already in use (`Engine.EnvOk`); otherwise
  every allocation may fail. The choice between in-place replacement and copy is arbitrary.
- The object belonging to a normal watch has one operations field, and a foreign id is always used
  with the same field (`Runs.CallOk`).
- For dispatch: the operations pointer of the object belongs to a live idata, which is also that
  of the object's watch, if any, and of any watch found by its ties (`Dispatch.Bearing`).
- Intermediate operations of an interceptor have distinct offsets (`Payloads.Distinct`).
- Modules, mutex and memory are inputs: which modules are going away, whether the mutex is
  acquired, how many more array elements can be allocated. A call fails at its first failing
  allocation, so a number says all there is to say.
- Strings contain no terminator; templates are formed from tokens, so each has one more chunk than
  placeholders; every name of a group is connected to a template or attribute.

## What turned out

Where code and documentation disagree the model follows the code.

- A field can lose operations that it has been given since it was watched. A foreign forget puts
  the original of its watch into the field whatever that holds
  (`sources/core/kedr_coi_instrumentors.c:1108-1154`); a normal forget checks. A watch whose
  update fails puts back the original of the operations the object had before (243-254). A bind by
  a factory that does not know a watched object puts the operations of its watch into the field
  (881-894). `Runs.Faithful` says exactly which calls leave a field with the same real operations;
  `Examples` has a run from the start for each of the three. The theorems about fields hold for
  runs of faithful calls, those about memory and tables for all runs.
- When a foreign watch is updated and the new operations cannot be instrumented, the code reads
  through the error pointer it was given (778-782). Bind and get_orig_operation read a slot
  through a null operations pointer when an object without operations, or with a copy made for
  one, is neither watched nor known by its tie (743, 211). The model has the outcome `Oops` for
  this (`Examples.UpdateOopsExample`, `Examples.BindNullExample`, `Examples.BindCopyExample`);
  what happens then is not modelled, the state is left alone.
- The documentation of stop says that objects still watched are forgotten as by forget_norestore
  (`sources/include/kedr-coi/operations_interception.h:345-346`); the code restores replaced
  structs (`sources/core/kedr_coi_instrumentors.c:336-373`). For ordinary objects that is the
  same: forgetting them without restoring leaves the field alone and restores the struct
  (`Runs.ForgetWithoutField`). For direct objects it is not: forgotten without restoring their
  struct stays replaced (`Runs.DirectNorestore`, `Examples.NorestoreExample`).
- While an interceptor is started registering and unregistering payloads is said to fail always
  (`sources/include/kedr-coi/operations_interception.h:331-333`); unregistering one that is not
  fixed succeeds (`sources/core/payloads.c:720-757`, `Payloads.RemoveWhileUsed`).
- A factory interceptor may be created with several intermediate operations, but a sanity check
  fails when it is started unless it has exactly one (`sources/core/payloads.c:635-639`). The
  model has the outcome `Crash`; `Interceptors.FactoryInterceptor.Start` says exactly when it
  occurs, and `Interceptors.StartFactoryOfTwo` shows it.
- Moving the elements of a hash table to other lists reverses the order of those with one key
  (`sources/core/kedr_coi_hash_table.c:174-193`), so that after a change of size the search for a
  tie would find the oldest watch instead of the newest (`HashTable.FoundAfterMove`). The size is
  never changed as long as the two functions that decide about it say no (259-270).
- A template may have the name of a keyword, or one that begins with a keyword and a space, but a
  plain reference to it is read as the keyword (`MistSource.BodyBack`,
  `MistSource.NamedLikeKeyword`).
- Evaluating a template group with recursion is said never to crash
  (`sources/tools/kedr_gen/src/mist_engine/src/mist_base.h:95-105`), but an `if` on a template
  that is being evaluated finds no value
  (`sources/tools/kedr_gen/src/mist_engine/src/mist_base.c:1993-1998`). A template that is
  conditional on itself fails, and so does one that refers to it (`MistWalk.IfOnItself`,
  `MistWalk.RefersToIfOnItself`); of a template and the one whose condition it is, one can be
  evaluated and the other cannot (`MistWalk.WhereOneBegins`). `MistEval.Group.Evaluate` fails
  exactly when the function `MistMeaning.Run` does. Whether it does may depend on the values of
  attributes (`MistWalk.ValuesDecide`), but a failure always comes with a way from the main
  template to a condition that lies on it, and after a success every template that is needed in
  any case has been evaluated and can be reached without the conditions it needs in any case.
  Where branches refer to nothing values play no part: evaluation fails exactly if a walk through
  the references, depth first and in their order, meets a condition on its own path
  (`MistWalk.LiteralFails`).

## Model

| member | source | states |
|---|---|---|
| Layers.SlotIsTopmost | sources/core/kedr_coi_instrumentors_impl.c:196-211 | a slot shows the replacement of the topmost list that applies to its original value, else the original value |
| Layers.SlotShows | sources/core/kedr_coi_instrumentors_impl.c:440-540 | a slot holds a layer's own replacement exactly when that layer is the topmost one that applies |
| Layers.SlotWithoutHidden | sources/core/kedr_coi_instrumentors_impl.c:440-540 | taking out a layer that does not show leaves the slot alone |
| Layers.SlotWithoutTop | sources/core/kedr_coi_instrumentors_impl.c:440-540 | taking out the layer that shows gives what the layers below it make of the slot |
| Layers.ReplaceSlot | sources/core/kedr_coi_instrumentors_impl.c:196-223 | the replacement loop over one slot, judged by the original value |
| Layers.NormalOperation | sources/core/kedr_coi_instrumentors_impl.c:355-390 | the loop that rebuilds the normal operation finds what the normal list alone makes of the original |
| Layers.ChainOperation | sources/core/kedr_coi_instrumentors_impl.c:392-437 | the reverse walk over the layers below finds what these make of the original |
| Layers.DetachSlot | sources/core/kedr_coi_instrumentors_impl.c:440-540 | whatever the order of attaching, the walk downwards leaves the slot as if the layer had never been there |
| Layers.ReplayBelow | sources/core/kedr_coi_instrumentors_impl.c:480-540 | the lower layers and then the normal list, replayed until the slot changes, give the slot of the stack below |
| Layers.ReplayNormal | sources/core/kedr_coi_instrumentors_impl.c:515-540 | the normal list as the last resort before the original value |
| Engine.SeparateStack | sources/core/kedr_coi_instrumentors_impl.c:196-211 | distinct replacement functions keep the lists of any stack apart at every slot |
| Engine.StartInv | sources/core/kedr_coi_instrumentors.c:290-330 | a new instrumentor is consistent with any memory |
| Engine.CreateOk | sources/core/kedr_coi_instrumentors_impl.c:625-664 | a created idata answers for exactly its two addresses, nothing else changes, and destroying it at once restores everything |
| Engine.CreateUndo | sources/core/kedr_coi_instrumentors_impl.c:666-696 | creation followed by destruction is the identity on memory and tables |
| Engine.GetDataOk | sources/core/kedr_coi_instrumentors_impl.c:921-947 | find or create: the reference that is returned is to a live idata of these operations; giving it back leaves no trace |
| Engine.DestroyConserves | sources/core/kedr_coi_instrumentors_impl.c:666-696 | destroying in restore mode puts back the original contents and releases both addresses |
| Engine.ReleaseInv | sources/core/kedr_coi_instrumentors.c:166-184 | dropping a reference keeps all tables consistent, in either mode |
| Engine.ReleaseOk | sources/core/kedr_coi_instrumentors.c:166-174 | dropping the last reference in restore mode conserves the memory underneath |
| Engine.AddLayerOk | sources/core/kedr_coi_instrumentors_impl.c:289-323 | a layer on top keeps the invariant: the struct is what the layer list makes of the saved original |
| Engine.DropLayerOk | sources/core/kedr_coi_instrumentors_impl.c:440-540 | the same for taking out a layer anywhere in the list, together with the reference it holds |
| Operations.WatchOk | sources/core/kedr_coi_instrumentors.c:225-288 | watch, update and failed update keep the invariant and conserve the memory underneath |
| Operations.ForgetOk | sources/core/kedr_coi_instrumentors.c:391-421 | forget keeps the invariant and conserves the memory underneath |
| Operations.FGetDataOk | sources/core/kedr_coi_instrumentors.c:577-603 | foreign find or create: exactly when it succeeds and with which error it fails; the layer is on top of what was there, once, everything else is as it was |
| Operations.FGetDataUndo | sources/core/kedr_coi_instrumentors.c:536-545 | giving back a foreign reference just taken restores kernel and tables exactly |
| Operations.FWatchOk | sources/core/kedr_coi_instrumentors.c:757-848 | foreign watch and update keep the invariant; where a failed update reads through an error pointer nothing is said about what follows |
| Operations.FForgetOk | sources/core/kedr_coi_instrumentors.c:1108-1154 | foreign forget keeps the invariant and conserves the memory underneath |
| Dispatch.DispatchReachesOriginal | sources/core/kedr_coi_instrumentors.c:851-980 | calling what a slot of an instrumented object holds runs exactly these replacement functions and then the original operation: from the topmost layer that replaces the slot down to the first one that finds the object or its tie watched, which hands over to the normal replacement; and whether the object is watched afterwards |
| Dispatch.NormalRuns | sources/core/kedr_coi_instrumentors.c:865-881 | the normal replacement runs exactly once if it applies and no layer replaces the slot or one that does finds the object or its tie watched; otherwise it does not run |
| Dispatch.CallFrom | sources/core/kedr_coi_instrumentors.c:851-980 | the same from what any number of lower layers make of the slot |
| Dispatch.BindOk | sources/core/kedr_coi_instrumentors.c:851-980 | bind keeps the invariant |
| Dispatch.BindAnswer | sources/core/kedr_coi_instrumentors.c:862-980 | what bind answers on each path: if tie or object are watched the normal replacement comes next if it applies, else the original; if neither is, the topmost layer below that applies, never the normal replacement |
| Dispatch.BindEffect | sources/core/kedr_coi_instrumentors.c:862-980 | the same for an object whose struct carries the layer, and what it does to the watch of the object |
| Dispatch.NoGarbage | sources/core/kedr_coi_instrumentors.c:726-752 | a struct without a foreign instrumentor's layer holds none of its replacement functions |
| Dispatch.BindFaultsOnlyOnNull | sources/core/kedr_coi_instrumentors.c:862-980 | exactly when bind reads through a null pointer and exactly when it reports a lost original, which is only for structs another instrumentor has; otherwise its own sanity checks hold |
| Runs.ActKeepsInv | sources/core/kedr_coi_instrumentors.c:225-288 | every call on a field keeps the invariant and conserves memory |
| Runs.WatchAgain | sources/core/kedr_coi_instrumentors.c:235-258 | what watching a watched object does to field, watch and idatas, and exactly when it succeeds |
| Runs.WatchNew | sources/core/kedr_coi_instrumentors.c:259-288 | what watching a new object does, and exactly when it succeeds; a failure changes nothing |
| Runs.FWatchAgain | sources/core/kedr_coi_instrumentors.c:770-791 | the same for a foreign watch with a known id, and exactly when it reads through an error pointer |
| Runs.FWatchNew | sources/core/kedr_coi_instrumentors.c:793-848 | the same for a new id: it succeeds exactly if the field is not watched, the operations are instrumented or can be, and there is memory for layer and watch; anything else changes nothing |
| Runs.ForgetEffect | sources/core/kedr_coi_instrumentors.c:391-421 | the field gets the original back exactly if it still holds operations of the watch |
| Runs.FForgetEffect | sources/core/kedr_coi_instrumentors.c:1108-1154 | a foreign forget puts the original back whatever the field holds |
| Runs.WatchFields | sources/core/kedr_coi_instrumentors.c:225-288 | a watch leaves the field with the same real operations exactly if it is faithful |
| Runs.ForgetFields | sources/core/kedr_coi_instrumentors.c:391-421 | forget always leaves the field with the same real operations |
| Runs.FWatchFields | sources/core/kedr_coi_instrumentors.c:757-848 | so does a foreign watch |
| Runs.FForgetFields | sources/core/kedr_coi_instrumentors.c:1108-1154 | a foreign forget does exactly if the field still holds operations of the watch |
| Runs.BindFields | sources/core/kedr_coi_instrumentors.c:851-980 | bind does exactly under the stated condition on the watch of the object |
| Runs.StaleForget | sources/core/kedr_coi_instrumentors.c:1134-1143 | a foreign forget changes the real operations of the field exactly if these are not the watch's own |
| Runs.FailedUpdate | sources/core/kedr_coi_instrumentors.c:243-254 | a failed update overwrites the field with the original of the operations it had before |
| Runs.ForgetWithoutField | sources/core/kedr_coi_interceptors.c:445-458 | forgetting an ordinary object without restoring its field restores its struct all the same |
| Runs.DirectNorestore | sources/core/kedr_coi_instrumentors.c:477-500 | a direct object forgotten without restoring leaves its struct replaced, exactly if nothing else needs it and it is replaced in place; all else is as with restoring |
| Examples.FailedUpdateExample | sources/core/kedr_coi_instrumentors.c:243-254 | from the start: the field holds newer operations, watching again fails, and the older ones are back |
| Examples.BindOverwritesExample | sources/core/kedr_coi_instrumentors.c:881-894 | the same with a bind by a factory that does not know the object |
| Examples.StaleForgetExample | sources/core/kedr_coi_instrumentors.c:1134-1143 | the same with forgetting a foreign watch |
| Examples.UpdateOopsExample | sources/core/kedr_coi_instrumentors.c:776-782 | from the start: updating a foreign watch without memory reads through an error pointer |
| Examples.BindChainsExample | sources/core/kedr_coi_instrumentors.c:865-881 | a factory that knows the tie hands over to the normal replacement, one that does not chains to the original |
| Examples.StackExample | sources/core/kedr_coi_instrumentors.c:577-603 | a struct that a normal watch has instrumented gets the layer of a factory |
| Examples.BindNullExample | sources/core/kedr_coi_instrumentors.c:969-980 | from the start: binding an object without operations reads through the null pointer |
| Examples.BindCopyExample | sources/core/kedr_coi_instrumentors.c:940-962 | so does binding an object that was given the copy made for an object without operations |
| Examples.NorestoreExample | sources/core/kedr_coi_instrumentors.c:477-500 | a direct object forgotten without restoring keeps the intermediate, whose original is lost then; with restoring memory is as at the start |
| Systems.StartSysInv | sources/core/kedr_coi_instrumentors.c:290-330 | runs can start from any memory that nobody instrumented and that holds no replacement functions |
| Systems.CleanOps | sources/core/kedr_coi_instrumentors_impl.c:88-138 | in every state of a run a struct that nobody instruments holds no replacement function: the engine leaves none behind |
| Systems.StepKeepsInv | sources/core/kedr_coi_instrumentors_impl.c:88-138 | every step of any instrumentor keeps the invariant of all of them and the memory underneath |
| Systems.StepReal | sources/core/kedr_coi_instrumentors.c:391-421 | every faithful step leaves every field with its real operations |
| Systems.RunKeepsInv | sources/core/kedr_coi_instrumentors_impl.c:88-138 | the same for runs of any length and order, given only that fields hold operations of the right size, fresh allocations and objects that keep to their fields |
| Systems.RunKeepsFields | sources/core/kedr_coi_instrumentors.c:391-421 | in a faithful run every field stands for what the kernel last assigned to it |
| Systems.OneOwner | sources/core/kedr_coi_instrumentors_impl.c:88-138 | the global table is the disjoint union of the instrumentors' tables; every address belongs to one struct of one instrumentor |
| Systems.ForgottenIsEmpty | sources/core/kedr_coi_instrumentors.c:353-373 | without watches all tables of an instrumentor are empty |
| Systems.RunRestores | sources/core/kedr_coi_instrumentors.c:353-421 | from no watches to no watches memory is word for word what it was and no table holds anything; in a faithful run every field holds the kernel's last assignment |
| Memory.OpsMemory.Replace | sources/core/kedr_coi_instrumentors_impl.c:625-664 | the slot loop of creation makes the struct what the normal list makes of it |
| Memory.OpsMemory.ReplaceCopy | sources/core/kedr_coi_instrumentors_impl.c:783-834 | the same on a private copy |
| Memory.OpsMemory.Overlay | sources/core/kedr_coi_instrumentors_impl.c:289-323 | the slot loop of attaching makes the struct what the longer stack makes of the original |
| Memory.OpsMemory.Detach | sources/core/kedr_coi_instrumentors_impl.c:440-540 | the nested slot loops of detaching make it what the stack without the layer makes of the original |
| Memory.OpsMemory.Restore | sources/core/kedr_coi_instrumentors_impl.c:676-696 | the restore loop puts back the saved contents word for word |
| Instrumentors.HeldIsCount | sources/core/kedr_coi_instrumentors.c:530-556 | a layer's reference count is positive exactly while some foreign watch of it exists |
| Instrumentors.Instrumentor.constructor | sources/core/kedr_coi_instrumentors.c:290-330 | an instrumentor starts with empty tables |
| Instrumentors.Instrumentor.CreateInPlace | sources/core/kedr_coi_instrumentors_impl.c:625-664 | in-place creation: struct, both tables, count of one |
| Instrumentors.Instrumentor.CreateCopy | sources/core/kedr_coi_instrumentors_impl.c:783-834 | creation with a copy: fresh struct, two addresses in both tables |
| Instrumentors.Instrumentor.CreateIdata | sources/core/kedr_coi_instrumentors_impl.c:921-947 | choice of mechanism and every failure, none of which changes anything |
| Instrumentors.Instrumentor.GetIdata | sources/core/kedr_coi_instrumentors_impl.c:921-947 | find or create with one more reference |
| Instrumentors.Instrumentor.DestroyIdata | sources/core/kedr_coi_instrumentors_impl.c:666-696 | contents, record and table entries go, in either mode |
| Instrumentors.Instrumentor.UnrefIdata | sources/core/kedr_coi_instrumentors.c:166-184 | the count goes down and the idata goes with the last reference |
| Instrumentors.Instrumentor.UpdateWatch | sources/core/kedr_coi_instrumentors.c:235-258 | the update path of watch follows its specification with exact counts |
| Instrumentors.Instrumentor.WatchObject | sources/core/kedr_coi_instrumentors.c:225-288 | watch follows its specification, keeping counts exact and all tables in agreement |
| Instrumentors.Instrumentor.ForgetObject | sources/core/kedr_coi_instrumentors.c:391-421 | forget likewise |
| Instrumentors.Instrumentor.ForgetObjectDirect | sources/core/kedr_coi_instrumentors.c:477-500 | forget of a direct object likewise, with or without restoring |
| Instrumentors.Instrumentor.OriginalOf | sources/core/kedr_coi_instrumentors_impl.c:722-728 | the saved original contents of either mechanism |
| Instrumentors.Instrumentor.AttachLayer | sources/core/kedr_coi_instrumentors_impl.c:289-323 | attaching a layer follows its specification, the reference moving from caller to layer |
| Instrumentors.Instrumentor.FindLayer | sources/core/kedr_coi_instrumentors_impl.c:325-342 | the list walk finds the layer of an instrumentor exactly if there is one |
| Instrumentors.Instrumentor.GetForeign | sources/core/kedr_coi_instrumentors.c:577-603 | foreign find or create follows its specification |
| Instrumentors.Instrumentor.DetachLayer | sources/core/kedr_coi_instrumentors_impl.c:440-540 | detaching takes exactly one layer out of list and struct |
| Instrumentors.Instrumentor.UnrefLayer | sources/core/kedr_coi_instrumentors.c:536-545 | the nested counts: watch, layer, idata |
| Instrumentors.Instrumentor.AddWatch | sources/core/kedr_coi_instrumentors.c:811-835 | a new watch is entered in the three tables that index it |
| Instrumentors.Instrumentor.TakeWatch | sources/core/kedr_coi_instrumentors.c:648-666 | and is taken out of all three |
| Instrumentors.Instrumentor.UpdateForeign | sources/core/kedr_coi_instrumentors.c:770-791 | the update path follows its specification; where that reads through an error pointer the state is left as it is |
| Instrumentors.Instrumentor.WatchForeign | sources/core/kedr_coi_instrumentors.c:757-848 | foreign watch follows its specification, including the field table |
| Instrumentors.Instrumentor.ForgetForeign | sources/core/kedr_coi_instrumentors.c:1108-1154 | foreign forget follows its specification |
| Instrumentors.Instrumentor.FindTieElem | sources/core/kedr_coi_instrumentors.c:631-646 | the newest watch with a tie |
| Instrumentors.Instrumentor.GetOrigOperation | sources/core/kedr_coi_instrumentors.c:423-464 | the answer to a normal intermediate: by watch, by table, by reading the slot |
| Instrumentors.Instrumentor.NormalOpOf | sources/core/kedr_coi_instrumentors_impl.c:355-390 | the normal operation of an instrumented struct |
| Instrumentors.Instrumentor.ChainOpOf | sources/core/kedr_coi_instrumentors_impl.c:392-437 | what a layer of an instrumented struct chains to |
| Instrumentors.Instrumentor.BindObject | sources/core/kedr_coi_instrumentors.c:851-980 | bind follows its specification on all five paths |
| Instrumentors.Instrumentor.BindUntied | sources/core/kedr_coi_instrumentors.c:875-980 | the paths without a watch of the tie change nothing |
| Instrumentors.Instrumentor.DestroyForeign | sources/core/kedr_coi_instrumentors.c:1021-1080 | each unforgotten foreign watch is reported exactly once and the two private tables end empty |
| Instrumentors.Instrumentor.DestroyAll | sources/core/kedr_coi_instrumentors.c:336-373 | each unforgotten watch is reported exactly once; with the foreign instrumentors gone all tables are empty and memory is restored |
| Sharing.ActLeaves | sources/core/kedr_coi_instrumentors_impl.c:88-138 | every call on a field leaves alone what other instrumentors own |
| Sharing.DirectLeaves | sources/core/kedr_coi_instrumentors.c:477-500 | so does forgetting a direct object, with or without restoring |
| Sharing.OtherValid | sources/core/kedr_coi_instrumentors_impl.c:88-138 | an instrumentor object stays valid when another one over the same memory is called |
| Sharing.WatchBeside | sources/core/kedr_coi_instrumentors.c:225-288 | a watch by one of two instrumentor objects: both are valid afterwards |
| Sharing.ForgetDirectBeside | sources/core/kedr_coi_instrumentors.c:477-500 | the same for forgetting a direct object without restoring |
| HashTable.AllWith | sources/core/kedr_coi_hash_table.c:91-110 | what replacing one bucket does to the contents |
| HashTable.AllHas | sources/core/kedr_coi_hash_table.c:111-126 | an element is in the table exactly if it is in some bucket |
| HashTable.Table.constructor | sources/core/kedr_coi_hash_table.c:73-89 | an empty table of the default size |
| HashTable.Table.Add | sources/core/kedr_coi_hash_table.c:91-109 | adds one occurrence of the element, in front of all with its key; the count is exact |
| HashTable.Table.Find | sources/core/kedr_coi_hash_table.c:111-126 | finds the first of the elements with the key, exactly if there is one |
| HashTable.Table.Remove | sources/core/kedr_coi_hash_table.c:128-135 | removes one occurrence and keeps the order of the rest |
| HashTable.Table.Transmit | sources/core/kedr_coi_hash_table.h:95-105 | another node takes the place of an element, in the order too |
| HashTable.Table.FillFrom | sources/core/kedr_coi_hash_table.c:174-193 | moving all elements to other lists loses none, places each by its key and reverses the order of those with one key |
| HashTable.Table.Realloc | sources/core/kedr_coi_hash_table.c:230-257 | whatever allocations fail the elements stay the same; which size results, and whether the order of elements with one key is reversed, exactly |
| HashTable.Table.ReallocSlowpath | sources/core/kedr_coi_hash_table.c:195-228 | the same for both exits of the slow path |
| HashTable.FoundAfterMove | sources/core/kedr_coi_hash_table.c:174-193 | of two elements with one key the newer is found before, the older after a change of size |
| HashTable.Table.Destroy | sources/core/kedr_coi_hash_table.c:137-170 | with a callback every element is freed once, without one none, and the warning is exact |
| Payloads.GatherStep | sources/core/payloads.c:149-209 | one more handler extends exactly the arrays of its operation |
| Payloads.ListsHandlers | sources/core/payloads.c:149-209 | the array for an operation lists exactly the pre (post) handlers of the payloads for it, in order, only external ones if the operation is missing |
| Payloads.OfOneKind | sources/core/payloads.c:453-500 | payloads without pre (post) handlers have none to be called before (after) an operation |
| Payloads.ClosedIsLeast | sources/core/payloads.c:426-442 | one pass over the groups yields the least closed set of operations intercepted when missing |
| Payloads.ReplacementFor | sources/core/payloads.c:518-572 | the replacement of an operation and its mode are determined by the two flags |
| Payloads.ReplacementsOnce | sources/core/payloads.c:518-572 | there is one replacement per offset at most |
| Payloads.ClosedIntercepts | sources/core/payloads.c:596-625 | handlers gathered and groups closed are what interception by these payloads is to be |
| Payloads.GroupsShare | sources/core/payloads.c:426-442 | missing operations without a group are taken each for itself, those of a group together, and only if one of them is to be |
| Payloads.Decision | sources/core/payloads.c:596-625 | end to end: an instrumentor given these replacements takes a slot over exactly if its operation is wanted, judged by whether the original is there |
| Payloads.OperationPayloads.constructor | sources/core/payloads.c:231-280 | nothing registered, nothing intercepted |
| Payloads.OperationPayloads.FindOperation | sources/core/payloads.c:218-229 | finds the operation at an offset exactly if there is one |
| Payloads.OperationPayloads.AddHandler | sources/core/payloads.c:149-209 | one handler into the arrays, with every failure of an allocation |
| Payloads.OperationPayloads.AddHandlers | sources/core/payloads.c:462-498 | the loop over the handlers of a payload |
| Payloads.OperationPayloads.UseElem | sources/core/payloads.c:453-500 | all handlers of a payload, in order |
| Payloads.PinsCount | sources/core/payloads.c:285-330 | a module is held once for each of its payloads in use |
| Payloads.OperationPayloads.FixAll | sources/core/payloads.c:285-330 | the payloads whose modules stay are fixed and their modules pinned |
| Payloads.OperationPayloads.ReleaseAll | sources/core/payloads.c:301-347 | exactly these are released |
| Payloads.OperationPayloads.MarkAll | sources/core/payloads.c:602-612 | everything is intercepted, missing operations where that is allowed |
| Payloads.OperationPayloads.UnuseAll | sources/core/payloads.c:505-513 | no operation is intercepted any more |
| Payloads.OperationPayloads.CloseOperations | sources/core/payloads.c:426-442 | the nested loops compute the closure |
| Payloads.OperationPayloads.CreateReplacements | sources/core/payloads.c:518-572 | counting and filling give the list of replacements |
| Payloads.OperationPayloads.Use | sources/core/payloads.c:574-649 | how it ends, in every case; success makes flags, arrays, replacements and pins exact and uses the payloads whose modules stay, any failure but a crash leaves all of them as they were |
| Payloads.ReplacesAny | sources/core/payloads.c:518-572 | there is something to replace exactly if all is to be intercepted or some payload in use has a handler |
| Payloads.OperationPayloads.UseFixed | sources/core/payloads.c:602-640 | from fixed payloads to replacements, and exactly how much memory that takes |
| Payloads.OperationPayloads.Unuse | sources/core/payloads.c:651-665 | everything is as before use |
| Payloads.OperationPayloads.CheckHandlers | sources/core/payloads.c:355-421 | a list of handlers is accepted exactly if each is for a known operation in a way that is allowed |
| Payloads.OperationPayloads.Add | sources/core/payloads.c:667-718 | the result in every case, in the order of the checks |
| Payloads.OperationPayloads.Remove | sources/core/payloads.c:720-757 | the result in every case: a payload that is registered and not fixed is removed, even while others are in use |
| Payloads.RemoveWhileUsed | sources/core/payloads.c:720-757 | from the start: a payload is removed while another one is used for interception |
| Payloads.OperationPayloads.GetInterceptionInfo | sources/core/payloads.c:789-807 | the arrays handed out are the null-terminated handlers of all used payloads for the offset, in order |
| Interceptors.IdleAgain | sources/core/kedr_coi_interceptors.c:299-394 | used and not used any more is the state before |
| Interceptors.AllStartIf | sources/core/kedr_coi_interceptors.c:322-345 | starting the factories succeeds exactly if everything is there that starting each of them takes |
| Interceptors.FactoryInterceptor.constructor | sources/core/kedr_coi_interceptors.c:584-631 | a factory interceptor starts idle |
| Interceptors.FactoryInterceptor.Start | sources/core/kedr_coi_interceptors.c:137-170 | how it ends, in every case, and all or nothing: a factory with more than one intermediate crashes if there is memory and never starts |
| Interceptors.StartFactoryOfTwo | sources/core/kedr_coi_interceptors.c:137-170 | a factory made with two intermediates crashes when it is started |
| Interceptors.FactoryInterceptor.Stop | sources/core/kedr_coi_interceptors.c:190-207 | back to the state before the start |
| Interceptors.Interceptor.CreateFactory | sources/core/kedr_coi_interceptors.c:584-631 | a factory is bound at the end of the list |
| Interceptors.Interceptor.Start | sources/core/kedr_coi_interceptors.c:299-355 | ends as the first of interceptor and factories that fails; all or nothing over all of them, including the pins of modules |
| Interceptors.Interceptor.StartFactories | sources/core/kedr_coi_interceptors.c:322-345 | the start loop and its rollback |
| Interceptors.Interceptor.Rollback | sources/core/kedr_coi_interceptors.c:334-352 | the reverse loop leaves all that was started as it was |
| Interceptors.Interceptor.Stop | sources/core/kedr_coi_interceptors.c:370-394 | start and stop restore the state of everything |
| Interception.GetIntermediateInfo | sources/core/kedr_coi_interceptors.c:499-552 | for a watched object the original and null-terminated arrays of exactly the pre handlers and the post handlers of the payloads in use, in order; for an instrumented one the original alone, else what the slot holds; exactly when it gets an error, for a lost original, and exactly when it reads through a null pointer |
| Interception.BindFactoryObject | sources/core/kedr_coi_interceptors.c:785-839 | a factory intermediate gets its pre and post handlers, in order, exactly when the bind newly watched the object |
| Interception.FactoryHandlersRun | sources/core/kedr_coi_interceptors.c:785-839 | when that is: the factory is watched, the object was not, and it could be watched now |
| Interception.NotWanted | sources/core/payloads.c:149-209 | an operation no payload asks for has no handlers |
| Interception.WatchedOperation | sources/core/payloads.c:596-625 | end to end for a watched object: the struct without foreign layers holds the intermediate exactly if handlers or a group ask for it; where it holds the original no handler was to be called |
| MistStrings.FindFirstOf | sources/tools/kedr_gen/src/mist_engine/src/mist_string_utils.c:561-588 | the first of some characters in a range, else its end |
| MistStrings.FindFirstNotOf | sources/tools/kedr_gen/src/mist_engine/src/mist_string_utils.c:591-618 | the first character that is not one of these |
| MistStrings.FindLastNotOf | sources/tools/kedr_gen/src/mist_engine/src/mist_string_utils.c:621-649 | the last such character |
| MistStrings.TrimString | sources/tools/kedr_gen/src/mist_engine/src/mist_string_utils.c:277-313 | the string without white space at its ends |
| MistStrings.NameIsBad | sources/tools/kedr_gen/src/mist_engine/src/mist_string_utils.c:702-724 | exactly the names with a bad first character or a character that is not allowed |
| MistStrings.Unescape | sources/tools/kedr_gen/src/mist_engine/src/mist_string_utils.c:425-536 | the segment-copying loop, in a buffer as long as the string, follows the recursive definition |
| MistStrings.Replace | sources/tools/kedr_gen/src/mist_engine/src/mist_string_utils.c:456-512 | one escape sequence: known, unknown, or a backslash at the end |
| MistStrings.UnescapeUndoesEscape | sources/tools/kedr_gen/src/mist_engine/src/mist_string_utils.c:425-536 | unescape inverts escape on every string |
| MistStrings.UnchangedIff | sources/tools/kedr_gen/src/mist_engine/src/mist_string_utils.c:425-536 | a string stays as it is exactly if it has no known escape sequence, else it gets shorter |
| MistTemplates.CollectAttrs | sources/tools/kedr_gen/src/mist_engine/src/mist_base.c:1722-1769 | the names a template refers to, its branches included, that no template has |
| MistTemplates.CreateAttrs | sources/tools/kedr_gen/src/mist_engine/src/mist_base.c:1658-1720 | exactly the missing names become attributes, and then every reference can be connected |
| MistTokens.Search | sources/tools/kedr_gen/src/mist_engine/src/mist_base.c:790-805 | the first occurrence of a marker in a range |
| MistTokens.TokenFromPlaceholder | sources/tools/kedr_gen/src/mist_engine/src/mist_base.c:945-1019 | the kind of a placeholder and its text without white space |
| MistTokens.NoMarkersInside | sources/tools/kedr_gen/src/mist_engine/src/mist_base.c:790-868 | neither chunks nor placeholder bodies contain a marker |
| MistTokens.AssembledIsSource | sources/tools/kedr_gen/src/mist_engine/src/mist_base.c:790-928 | chunks, bodies and markers tile the source |
| MistTokens.OneWay | sources/tools/kedr_gen/src/mist_engine/src/mist_base.c:790-928 | a source can be cut in one way at most |
| MistTokens.TokensAlternate | sources/tools/kedr_gen/src/mist_engine/src/mist_base.c:790-928 | chunk, placeholder, ..., chunk |
| MistTokens.OneReason | sources/tools/kedr_gen/src/mist_engine/src/mist_base.c:790-868 | the reasons for which a scan cannot go on exclude each other |
| MistTokens.NextCut | sources/tools/kedr_gen/src/mist_engine/src/mist_base.c:790-868 | one round of the scan: the next placeholder, the end, or an error with its reason |
| MistTokens.Tokenize | sources/tools/kedr_gen/src/mist_engine/src/mist_base.c:759-943 | the scan ends, and succeeds exactly if the source can be cut, with the tokens of that cut; otherwise the error is why the scan could not go on |
| MistParser.ParseReference | sources/tools/kedr_gen/src/mist_engine/src/mist_base.c:1230-1342 | a reference with or without join |
| MistParser.ParseCondition | sources/tools/kedr_gen/src/mist_engine/src/mist_base.c:2703-2754 | a condition with or without concat |
| MistParser.ParseTemplate | sources/tools/kedr_gen/src/mist_engine/src/mist_base.c:1091-1166 | a template is read up to what ends it, its tokens accounted for in any context; failure means that nothing can make the tokens nest |
| MistParser.ParseExpression | sources/tools/kedr_gen/src/mist_engine/src/mist_base.c:1169-1227 | the same for one placeholder |
| MistParser.ParseElse | sources/tools/kedr_gen/src/mist_engine/src/mist_base.c:1391-1470 | the second branch, or an empty one, and the endif |
| MistParser.ParseConditional | sources/tools/kedr_gen/src/mist_engine/src/mist_base.c:1345-1470 | the same for a conditional |
| MistParser.FromTokens | sources/tools/kedr_gen/src/mist_engine/src/mist_base.c:1055-1088 | a template exactly if conditionals nest and names are good; written down again it is the tokens with the missing else branches |
| MistParser.SameTemplate | sources/tools/kedr_gen/src/mist_engine/src/mist_base.c:1091-1166 | no two templates are written alike |
| MistParser.OneMeaning | sources/tools/kedr_gen/src/mist_engine/src/mist_base.c:1091-1166 | tokens have one meaning |
| MistParser.ReadBack | sources/tools/kedr_gen/src/mist_engine/src/mist_base.c:1091-1166 | tokens that say what a template is are read as that template |
| MistParser.JoinBack | sources/tools/kedr_gen/src/mist_engine/src/mist_base.c:1263-1325 | a join with any separator, escaped, is read back |
| MistParser.ReferenceShape | sources/tools/kedr_gen/src/mist_engine/src/mist_base.c:1230-1342 | nothing else is read as a reference than a good name, or a name and a join with its separator in parentheses |
| MistParser.ConditionShape | sources/tools/kedr_gen/src/mist_engine/src/mist_base.c:2703-2754 | a condition is all of the expression, or what is in the parentheses of a concat |
| MistParser.ConditionBack | sources/tools/kedr_gen/src/mist_engine/src/mist_base.c:2703-2754 | conditions are read back |
| MistParser.SpacedJoinBack | sources/tools/kedr_gen/src/mist_engine/src/mist_base.c:1263-1325 | white space around the colon, before the parenthesis and at either end of a join does not matter |
| MistParser.SpacedConditionBack | sources/tools/kedr_gen/src/mist_engine/src/mist_base.c:2703-2754 | nor does white space before the parenthesis of a concat and inside |
| MistParser.ElseLeftOut | sources/tools/kedr_gen/src/mist_engine/src/mist_base.c:1391-1470 | a conditional without else is read as one with an empty second branch |
| MistParser.RoundTrip | sources/tools/kedr_gen/src/mist_engine/src/mist_base.c:1091-1470 | a template with good names, shown as tokens, is read back |
| MistSource.BodyBack | sources/tools/kedr_gen/src/mist_engine/src/mist_base.c:945-1019 | a placeholder with good names, written with any white space around it, is read as what it is, exactly if it does not begin with a keyword |
| MistSource.NamedLikeKeyword | sources/tools/kedr_gen/src/mist_engine/src/mist_base.c:988-998 | a plain reference to a template that is named like a keyword is read as the keyword |
| MistSource.CutAsWritten | sources/tools/kedr_gen/src/mist_engine/src/mist_base.c:790-928 | what is written with markers is cut where it was put together, if no marker appears by chance |
| MistSource.SourceBack | sources/tools/kedr_gen/src/mist_engine/src/mist_base.c:1022-1088 | a source of a template can be cut, and what it is cut into is that template |
| MistSource.ClearOfChars | sources/tools/kedr_gen/src/mist_engine/src/mist_base.c:790-928 | no marker appears by chance if neither chunks nor placeholders contain the characters that markers begin with |
| MistSource.FromString | sources/tools/kedr_gen/src/mist_engine/src/mist_base.c:1022-1088 | from the source string: no template if it cannot be cut, else what its one cut says; what a template was written as is read as that template |
| MistSource.ReadConditional | sources/tools/kedr_gen/src/mist_engine/src/mist_base.c:945-1019 | a conditional with both branches, from its source |
| MistValues.NumValues | sources/tools/kedr_gen/src/mist_engine/src/mist_base.c:2230-2258 | at least one value, and as many as the longest placeholder that is not joined |
| MistValues.Values | sources/tools/kedr_gen/src/mist_engine/src/mist_base.c:1904-1924 | value i is the chunks with the i-th values of the placeholders in between |
| MistValues.RepeatLast | sources/tools/kedr_gen/src/mist_engine/src/mist_base.c:2329-2340 | saying the last value of a placeholder once more changes no value: it serves from there on |
| MistValues.OnlyPlaceholder | sources/tools/kedr_gen/src/mist_engine/src/mist_base.c:2281-2344 | one placeholder with nothing around it has its own values, in order |
| MistValues.OnlyJoined | sources/tools/kedr_gen/src/mist_engine/src/mist_base.c:2162-2210 | if it is joined it has one value, of all of them |
| MistValues.JoinedIsOne | sources/tools/kedr_gen/src/mist_engine/src/mist_base.c:2162-2210 | joined values are, in every value, as good as the one they are joined to |
| MistLaws.OnlyNothing | sources/tools/kedr_gen/src/mist_engine/src/mist_base.c:2281-2344 | a placeholder without values leaves nothing |
| MistLaws.ValueTogether | sources/tools/kedr_gen/src/mist_engine/src/mist_base.c:1904-1924 | the value of two templates written one after the other is the first value and then the second |
| MistLaws.OnlyChunk | sources/tools/kedr_gen/src/mist_engine/src/mist_base.c:1904-1924 | a template without placeholders has the value of its chunk |
| MistLaws.JoinedTogether | sources/tools/kedr_gen/src/mist_engine/src/mist_base.c:2162-2210 | joining is from the first value to the last with the separator in between |
| MistLaws.OneCondition | sources/tools/kedr_gen/src/mist_engine/src/mist_base.c:2043-2106 | with a single condition the values are those of the branch it chooses |
| MistLaws.SideBySide | sources/tools/kedr_gen/src/mist_engine/src/mist_base.c:2070-2106 | with as many values in each branch as conditions, each condition chooses one of the two beside it |
| MistLaws.OneForAll | sources/tools/kedr_gen/src/mist_engine/src/mist_base.c:2000-2042 | joined conditions choose the first branch for all if any of them holds, else the second |
| MistLaws.LastServes | sources/tools/kedr_gen/src/mist_engine/src/mist_base.c:2070-2106 | conditions and values of branches that have run out are served by their last ones |
| MistLaws.HowMany | sources/tools/kedr_gen/src/mist_engine/src/mist_base.c:2043-2069 | how many values a conditional has |
| MistLaws.PlaceholderMeans | sources/tools/kedr_gen/src/mist_engine/src/mist_base.c:1961-2118 | what the kinds of placeholders stand for, each by itself |
| MistValues.JoinedLength | sources/tools/kedr_gen/src/mist_engine/src/mist_base.c:2134-2139 | the exact length of joined values |
| MistValues.ValueFits | sources/tools/kedr_gen/src/mist_engine/src/mist_base.c:2213-2227 | no value is longer than what was computed for the buffers |
| MistValues.Builder.Append | sources/tools/kedr_gen/src/mist_engine/src/mist_base.c:2269-2275 | a string copied into a row, within the row and with room for the terminator |
| MistValues.Builder.CopyString | sources/tools/kedr_gen/src/mist_engine/src/mist_base.c:2261-2278 | the same for all rows |
| MistValues.Builder.JoinValues | sources/tools/kedr_gen/src/mist_engine/src/mist_base.c:2162-2210 | the join loop writes the joined values |
| MistValues.Builder.CopyPlaceholder | sources/tools/kedr_gen/src/mist_engine/src/mist_base.c:2281-2344 | every row gets its value, the last one serving the rest; joined values go to all |
| MistValues.Builder.Fill | sources/tools/kedr_gen/src/mist_engine/src/mist_base.c:1930-1938 | chunks and placeholders in turn build the values |
| MistValues.Builder.Read | sources/tools/kedr_gen/src/mist_engine/src/mist_base.c:1940-1952 | the terminators fit and the rows are the values |
| MistValues.CountValues | sources/tools/kedr_gen/src/mist_engine/src/mist_base.c:2230-2258 | the counting loop |
| MistValues.BuildValues | sources/tools/kedr_gen/src/mist_engine/src/mist_base.c:1894-1957 | all values of a template, which obey the laws of the last value and of the single placeholder; no write leaves its buffer |
| MistMeaning.AgreeTpl | sources/tools/kedr_gen/src/mist_engine/src/mist_base.c:1961-2118 | the values of a template depend on no more than the names whose values matter |
| MistEval.Leave | sources/tools/kedr_gen/src/mist_engine/src/mist_base.c:1944-1954 | the values get visible only when all are built |
| MistEval.Group.AddValue | sources/tools/kedr_gen/src/mist_engine/src/mist_base.c:2975-3006 | one more value for a known name |
| MistEval.Group.Evaluate | sources/tools/kedr_gen/src/mist_engine/src/mist_base.c:3009-3032 | evaluation ends, evaluates each template at most once and only what is used, gives each at least one value that fits the others; without recursion these are the values of evaluating everything anew. It fails exactly when the function Run says, only on a condition that lies on the way to it, and where branches refer to nothing exactly if the walk through the references does |
| MistLazy.OnlyNeeded | sources/tools/kedr_gen/src/mist_engine/src/mist_base.c:2043-2069 | nothing has been evaluated but the main template and what some template, evaluated on a way from it, uses: branches that are not chosen are left alone |
| MistLazy.RunOnlyUsed | sources/tools/kedr_gen/src/mist_engine/src/mist_base.c:1833-1958 | the same from any state, for any template |
| MistEval.Group.EvalTemplate | sources/tools/kedr_gen/src/mist_engine/src/mist_base.c:1833-1887 | an evaluated template is left alone; an attribute without values gets an empty one |
| MistEval.Group.EvalOwn | sources/tools/kedr_gen/src/mist_engine/src/mist_base.c:1862-1957 | a template is marked and cleared before, and gets its values after, everything it refers to |
| MistEval.Group.EvalBody | sources/tools/kedr_gen/src/mist_engine/src/mist_base.c:1874-1957 | both passes over a template or branch |
| MistEval.Group.EvalPlaceholder | sources/tools/kedr_gen/src/mist_engine/src/mist_base.c:1961-2118 | a placeholder, with or without condition |
| MistEval.Group.EvalConcat | sources/tools/kedr_gen/src/mist_engine/src/mist_base.c:2000-2042 | one branch for all values |
| MistEval.Group.EvalChosen | sources/tools/kedr_gen/src/mist_engine/src/mist_base.c:2043-2069 | the first pass: exactly the branches that are chosen are evaluated |
| MistEval.Choose | sources/tools/kedr_gen/src/mist_engine/src/mist_base.c:2070-2106 | the second pass: condition and branch values, the last ones serving the rest |
| MistEval.SharedIsAnew | sources/tools/kedr_gen/src/mist_engine/src/mist_base.c:1833-1958 | without recursion shared values are those of evaluating anew |
| MistEval.SemOfGiven | sources/tools/kedr_gen/src/mist_engine/src/mist_base.c:1849-1868 | evaluating again gives the same: values given to attributes count only through what is made of them |
| MistEval.FaultIsBlocked | sources/tools/kedr_gen/src/mist_engine/src/mist_base.c:1993-1998 | a condition without values lies on the chain of templates that led to it |
| MistEval.MustBeEvaluated | sources/tools/kedr_gen/src/mist_engine/src/mist_base.c:1833-1887 | after a success all templates that are needed whatever branches are taken have been evaluated |
| MistEval.MustBeAvoided | sources/tools/kedr_gen/src/mist_engine/src/mist_base.c:1993-1998 | and to each template evaluated there is a way that avoids the conditions it needs in any case |
| MistWalk.WalkIsRun | sources/tools/kedr_gen/src/mist_engine/src/mist_base.c:1833-1958 | where branches refer to nothing a walk through the references goes, and fails, as the evaluation does, from any state |
| MistWalk.LiteralFails | sources/tools/kedr_gen/src/mist_engine/src/mist_base.h:99-105 | evaluation of such a group fails exactly if the walk from the main template meets a condition on its own path |
| MistWalk.IfOnItself | sources/tools/kedr_gen/src/mist_engine/src/mist_base.h:99-105 | a group that is in order and whose evaluation fails |
| MistWalk.RefersToIfOnItself | sources/tools/kedr_gen/src/mist_engine/src/mist_base.h:99-105 | one whose evaluation fails from a template that lies on no cycle |
| MistWalk.WhereOneBegins | sources/tools/kedr_gen/src/mist_engine/src/mist_base.h:99-105 | one whose evaluation succeeds from one template of a cycle and fails from the other |
| MistWalk.ValuesDecide | sources/tools/kedr_gen/src/mist_engine/src/mist_base.h:99-105 | where a branch refers to a template it depends on the value of an attribute whether evaluation fails: references alone do not decide |
| MistEval.EvaluateRecursive | sources/tools/kedr_gen/src/mist_engine/src/mist_base.h:99-105 | these groups, made and evaluated: they fail and succeed as said |
| StringMap.LessIs | sources/tools/kedr_gen/src/mist_engine/src/smap.c:386-523 | the order of keys: a proper part at the beginning, or smaller where they first differ |
| StringMap.KeptCount | sources/tools/kedr_gen/src/mist_engine/src/smap.c:386-523 | an old pair stays exactly if its key is not updated |
| StringMap.Map.Update | sources/tools/kedr_gen/src/mist_engine/src/smap.c:386-523 | the result is sorted and is the old pairs with other keys and all pairs of the update, which is empty then; every pair is kept or freed once |
| StringMap.Map.UpdateSorted | sources/tools/kedr_gen/src/mist_engine/src/smap.c:409-440 | the cases of empty maps and of failed allocation |
| StringMap.Map.MergeAll | sources/tools/kedr_gen/src/mist_engine/src/smap.c:436-522 | the merge of two maps that are not empty |
| StringMap.Merge.NextKey | sources/tools/kedr_gen/src/mist_engine/src/smap.c:448-485 | smaller pairs, replaced pairs, and all pairs with the next key |
| StringMap.Merge.MoveGroup | sources/tools/kedr_gen/src/mist_engine/src/smap.c:472-483 | several pairs with one key are all taken |
| StringMap.Merge.Run | sources/tools/kedr_gen/src/mist_engine/src/smap.c:444-511 | the whole loop, both tails included |


## Left out

- Locking and interrupts: every call is one atomic step; lists and hash nodes are members of
  sequences and maps, addresses are numbers.
- Heap records of the engine: instrumentors are objects, but idatas, layers and watches are values
  in their maps, an idata being named by the address of the struct it replaces. Aliasing of
  records is not modelled; that indices agree and counts are exact is proved instead.
- `Instrumentors` uses maps for the hash tables; that `HashTable` holds a multiset of elements,
  ordered by age for each key as long as its size is not changed, is proved on its own.
- The order in which a call drops a reference and updates the table that held it may differ from
  the code; nothing can be observed in between.
- Direct objects, whose address is their operations struct: watching one is a call on a field that
  holds its own address; forgetting one is modelled, keeps the invariant and leaves other
  instrumentors alone, but without restoring it may leave the struct replaced, and is not a
  command of the runs in `Systems`.
- Operations.FWatchOk: where the update of a watch reads through an error pointer nothing is said
  about what follows; the state is left as it is and the outcome is `Oops`.
- Runs.FWatchAgain: the same.
- Instrumentors.Instrumentor.UpdateForeign: the same.
- Runs.FWatchFields: a known id that is given with another operations field than before is not
  covered; the code then replaces the operations of the new field and keeps the old one as
  watched.
- Runs.FForgetFields: the same; the original is put into the field that is given.
- Payloads.OperationPayloads.constructor: intermediates that repeat an offset are not covered. The
  code does not check; it would give all handlers to the first one.
- Interceptors.FactoryInterceptor.constructor: the same.
- Interceptors.Interceptor.CreateFactory: the same.
- Copies of replaced pointers in objects the engine never watched.
- MistEval.Group.Evaluate: for recursive groups the values are related to each other as they were
  seen, not to a meaning given beforehand; where branches refer to templates, the condition for a
  failure is the evaluation itself as a function (`MistMeaning.Run`) with bounds from both sides
  in terms of references, not a condition on references alone, since values of attributes can
  decide (`MistWalk.ValuesDecide`).
- Values of branches and conditionals are results of methods here and not kept in template
  records; out-of-memory cleanup, error texts and line numbers in MiST.
- StringMap.Map.Update: once memory is reserved adding an element does not fail; the sort
  functions of the C library are stood for by an insertion sort, and equal keys keep no order.
- Lookup, setting of values and the check for duplicates in string maps, growing arrays, files and
  arguments of MiST, the public wrappers.
- Creating the instrumentor when an interceptor starts is one step that may fail; its behaviour is
  that of `Instrumentors`. Tracing callbacks are the lists of what is reported.
- Concrete interceptors, trampolines, examples, the generator of payload code.
