# Sync to Kindle: the planner, its protocol and its drivers, verified

This project models the part of the program that decides what happens to somebody's books: the planner that compares the
local library, the history and the device, and plans a list of actions; the run that executes the list and records the
history; and the drivers, the history store, the header encoder and the record parser that it works with.

The planner reads three maps from paths to objects: the local source (L), the history of the last sync (H) and the
device (D). It sorts the books into the rows of a decision table, and while it plans it edits the maps of the source and
the device as predicted mirrors of the two file systems. A run does the actions one after the other, stops at the first
error, and saves the source as the new history only after all of them. What one run saves decides what the next one
removes, so the promises that matter are about whole histories of use.

## How the model is built

* `Paths`, `InfoSet`: slash-separated paths as strings, and the map algebra of the object sets. `ObjectSets` is the same
  algebra as the source has it: a class around a map that `Add` and `Delete` change in place, and loops that fill fresh
  maps.
* `Plan`: what every step of the planner does, as functions on a state of two mirrors, the known thumbnails and the list
  of actions; map loops are folds over an order of the keys, and `IsPlan` says that a state is reached for some order.
  `Planning` is the planner in its own form, a class with methods and loops that take keys in any order, proved to end
  in an `IsPlan` state.
* `FileSystem`: the trees that actions run on. A removal needs an existing object, and an empty one if it is a
  directory; a creation needs a free path in an existing directory. `Exec` stops at the first action that cannot be
  done.
* `WellFormed`: the hypotheses, listed below. `Invariant`, `LocalPhase`, `Removals`, `DeviceRemovals`, `Copies`,
  `CopyLoop`, `Setting`, `Decisions` and `Outcomes` hold the induction over the planner: every step keeps that the
  actions so far run, that the mirrors describe where they lead, that every action has a reason, and that an object is
  used twice only when it is removed again.
* `Theorems`, `Counting`, `Pruning`, `Undecided`, `OrderFree`, `Actions`, `Sharing`, `Table`, `Companions`: the results
  about one run, the last of them about the files that go with a book.
* `Stability`, `Interruption`, `Resumption`: the results about a run that stops anywhere.
* `Protocol`, `Runs`, `Mailing`: the fixed points, and the results about whole histories of use.
* `Mounting`, `Binding`: the run of a plan over the two kinds of device, action by action on the objects that the plan
  hands to the driver, and exactly when it is done to the end. `Stuck`: the same where the target cannot be made.
  `Once`: when an MTP device is left as the next run over it needs it.
* `Syncing`, `History`, `Usb`, `Mtp`, `MtpDevice`, `FileNames`, `Disposition`, `Mobi`: the run, the history store, the
  two drivers, the header encoder and the record parser, in the form of the source.
* `Witnesses`, `WitnessRuns`, `WitnessOrders`: inputs on which the code does not do what its comments suggest.

`Exec` addresses the paths that the plan names, and the results about one run, about interruption and about histories of
use are stated for it. A driver works on objects instead. `Mounting.MountedRun` and `Binding.MtpRun` say what becomes of
that: over either kind of device a run does a prefix of the planned run, the whole of it exactly when a condition on the
input holds. So the results carry over to a device under that condition, and a run that the driver stops is one that the
results about interruption cover: each run over either kind of device is one step of the protocol (`Syncing.Sync`,
`Syncing.SyncMtp`).

## The hypotheses

`RunOK` collects what a run over a device relies on without checking it. All of it can be read off the two trees, the
history and the configuration before the run.

* The source is a directory tree of clean paths; the device is one too, and the drivers enumerate them faithfully, with
  objects of their own. The history was saved with the same source path.
* Under the target, the device and the re-rooted source never have a file where the other has a directory, and the paths
  of the page indexes of books name files, if they are there at all. `.apnx` is not a book extension.
* The directory that holds the target exists (`Stuck.StuckIff` says what happens otherwise). Target and thumbnail folder
  are apart, and nothing that the driver lists has a path that merely starts with the text of the thumbnail folder.
* No book of the history or of the source has a relative path that is also the whole path of something that the driver
  lists beside the target and that starts with the text of the target; while the target is missing, of anything that the
  driver lists.
* Thumbnail names are plain file names with a known extension, and neither a directory of that name nor a subdirectory
  of the thumbnail folder hides them.

Whatever meets them, the planner has subsets to work on and ends in some state (`Setting.SomeSubsets`,
`Pruning.SomePlan`). The results about drivers add what the device is: nothing lies on it at the path of its own mount
point (`Mounting.Clear`); an MTP device holds each path once, gives new objects new ids, and the directory of the target
is listed, as `Mtp.WalkIsView` shows of the walk. `Once.OnceAfterRun` says when it holds each path once again after a
run.

Wherever a run stops, the hypotheses on the two trees hold again (`Stability.HypothesesKept`). Those on what the driver
lists do too, if outside the target and the thumbnail folder it lists no more than before, and no book has the relative
path of a thumbnail (`Resumption.ListingsKept`); the results about a second run ask for no more than that they hold of
its listing.

## Where the code and its comments differ

The code is followed in each case.

* A path counts as inside a directory when it starts with the text of the directory, so `Foo Bar` counts as inside `Foo`
  (objects/infoset.go:100). An emptied directory with such a sibling then stays in some order in which Go walks its map
  (`Pruning.RemovedInEveryOrder`), and goes in another if these siblings go too (`Undecided.TwoOutcomes`;
  `Witnesses.ShortFirst` and `Witnesses.LongFirst` show the steps, `WitnessOrders.OrderMatters` an input).
* The entry of a replaced thumbnail is dropped under a name that device drivers never set (sync/prepare.go:251), so two
  copied books with one thumbnail name remove the same object twice (`Witnesses.SharedThumbRemovedTwice`,
  `WitnessOrders.OrderMatters`), which both drivers refuse. It is exactly when that thumbnail was on the device and is
  not removed with a book (`Sharing.SharedThumb`).
* Two copied books with a common page index copy it twice, and the second time remove the object of the first
  (`Sharing.NoObjectSharedIff`). The driver of a mounted device has put the mount point into that object by then, puts
  it there again, and fails (`Mounting.MountedRun`, `WitnessRuns.MountedRunFails`). Books of one stem are not the only
  case: `x.azw3` and `x.sdr/x.azw3` have a page index in common too.
* All parent folders on the device are to be made before a copy (sync/prepare.go:352-353), but the target is the topmost
  one that is: where the directory above it is missing, the first copy stops the run (`Stuck.StuckIff`).
* The parent of a target of one component is looked up as "." and is never found by the MTP driver
  (mtp/device_linux.go:123-126), so a plan that has to make that target stops there (`Binding.MtpRun`,
  `WitnessRuns.MtpRunFails`), though a mounted device would create it.
* While the target is missing, everything that the driver lists counts as a book under it (sync/prepare.go:107), so a
  book whose relative path is the path of something on the device is not copied (`Witnesses.RawKeysHide`). That is why
  the hypotheses exclude such paths.
* A run that stops between the removal and the copy of a changed book makes the next run remove the book locally. One
  that stops when no local book is left leaves its other removals undone, because planning without local books is an
  error (sync/prepare.go:71-73, `Resumption.ResumableIff`).
* The table at the head of sync/prepare.go keeps the history of a book that was removed on both sides (row 5). As the
  source is saved as a whole, the book is forgotten (`Table.ColumnsAfter`).

## Model

| member | source | states |
|---|---|---|
| `Theorems.PlanRunsAndPredicts` | sync/prepare.go:149-268 | addressed by the paths it names, the plan never gets stuck, the upward recursion ends, enumerating the source after the run gives the local mirror, and the device mirror describes the device |
| `Theorems.DeviceAfterRun` | sync/prepare.go:149-265 | what the device holds at every path after a run, contents included |
| `Theorems.DeviceIndependentOfOrder` | sync/prepare.go:157-266 | for every two orders of the three map loops the device ends up the same, and so do the paths and kinds of its mirror |
| `Undecided.OutcomeIndependentIff` | sync/prepare.go:157-172 | all orders leave the same source if and only if no directory is emptied whose raw siblings, and those of the directories in it, exist and are all removed as well |
| `Undecided.TwoOutcomes` | sync/prepare.go:335-350 | given such a directory, there are two orders of which one leaves a directory that the other one removes |
| `OrderFree.ActionsIndependentOfOrder` | sync/prepare.go:157-266 | all orders plan the same multiset of actor, action and path if and only if no such directory exists |
| `OrderFree.ThumbRemoves` | sync/prepare.go:246-264 | how often a thumbnail is removed: once if it goes with a removed book, and once for each copy if it is still known when the copies begin |
| `Counting.CopiesPlanned` | sync/prepare.go:216-265 | the books of row 3 are exactly the keys the copy loop walks, each once, and the number of copies to a path is the sum of what they, their page indexes and their thumbnails call for |
| `Table.DecisionTable` | sync/prepare.go:4-18 | a complete run changes the books of the source and of the target by the decision table, contents included |
| `Table.ColumnsAfter` | sync/prepare.go:4-18 | where each book is after a run from where it was and where it was recorded, and that the classes of the table are disjoint |
| `Pruning.DirectoriesPruned` | sync/prepare.go:322-350 | a local directory is removed only if the removed files empty it, and exactly then when no local path merely starts with its text or that of a directory in it |
| `Pruning.RemovedInEveryOrder` | sync/prepare.go:335-350 | a directory is removed in every order of the loops if and only if the removed files empty it and no local path merely starts with its text or that of a directory in it |
| `Pruning.EveryOrderPrunes` | sync/prepare.go:335-350 | every order removes all emptied directories if and only if no local path merely starts with the text of an emptied one |
| `Pruning.SomePlan` | sync/prepare.go:154-268 | the loops end in some state, whatever is read |
| `Setting.SomeSubsets` | sync/prepare.go:67-147 | whatever meets the hypotheses on trees and maps, there are subsets for the planner to work on |
| `LocalPhase.RemoveObjectInv` | sync/prepare.go:322-331 | removing a local file keeps that the mirror has exactly the files not removed, that what is missing besides is emptied directories, and that every emptied directory without raw siblings is gone |
| `LocalPhase.RemoveDirsInv` | sync/prepare.go:335-350 | the upward recursion reaches that state from the directory of a removed file, removing empty directories only |
| `Actions.DirectoriesMadeOnce` | sync/prepare.go:392-415 | the target and each directory above a copied file is made exactly once if it is missing, and no other directory is made |
| `Actions.EveryActionHasItsReason` | sync/prepare.go:149-265 | every local removal is of a book of row 7, its page index or a directory that these removals empty; every device removal is of a book of row 6, its page index, a thumbnail recorded for a removed book, or makes room for the copy that follows; what is created stands for a copied book and is named by its path |
| `Actions.DeviceConfined` | sync/prepare.go:149-265 | outside the target and the thumbnail folder the device stays as it was, and no action addresses it |
| `Binding.ParentsResolve` | sync/prepare.go:374-415 | the parent of every created object is in the final device map, an enumerated directory or one made by an earlier action, if and only if no missing target of one component is to be made; only that target can lack it |
| `Actions.SharingIsUsingAgain` | sync/prepare.go:246-264 | two actions of a plan share an object exactly when some path outside the thumbnail folder is copied to twice or some thumbnail is removed twice |
| `Sharing.NoObjectSharedIff` | sync/prepare.go:232-265 | two actions of a plan share an object exactly when two copied books share a page index that is in the source, or a thumbnail that is on the device and not removed with a book |
| `Sharing.RerootedKey` | sync/prepare.go:359-361 | a local object copied under the target and enumerated there gets its key back from every possible subset, unless the key is the path of something beside the target |
| `Companions.LocalIndexGoes` | sync/prepare.go:158-164 | a page index of a book that is removed locally is not in the source after a run |
| `Companions.IndexCopied` | sync/prepare.go:232-236 | a page index of a copied book that is in the source after a run is on the device, with its contents, at the same place under the target |
| `Companions.DeviceIndexGoes` | sync/prepare.go:186-192 | a page index of a book that is removed from the device is not there after a run, unless it was copied anew |
| `Companions.ThumbnailAfter` | sync/prepare.go:165-264 | after a run a thumbnail is the one extracted from a copied book, or gone because it was recorded for a removed book, or else as it was |
| `Paths.SupplementsAre` | sync/prepare.go:274-285 | the page indexes of a book are named by its name up to the last dot: one beside it, one in a folder of that name |
| `Paths.SupplementsUnder` | sync/prepare.go:274-285 | the same for a relative path under a root |
| `Paths.ExtIs` | sync/prepare.go:278 | the extension of a name is what stands from its last dot on, or nothing |
| `Paths.NameIn` | sync/prepare.go:275 | a path is taken apart at its last slash |
| `Paths.JoinIs` | sync/prepare.go:282-283 | joining puts one slash between two elements, and none beside an empty one |
| `Paths.SupplementsAt` | sync/prepare.go:274-285 | the page-index paths of a book move with it when it is re-rooted, and carry the page-index extension |
| `InfoSet.SubsetEntry` | objects/infoset.go:89-102 | which entries are selected, told by their paths and kinds, and the keys under which they are stored |
| `InfoSet.SubsetByPathExact` | objects/infoset.go:84-105 | every possible result is the map of strict descendants under relative keys, if and only if no other path starts with the text of the directory |
| `FileSystem.Conservation` | sync/run.go:144-149 | in a run that completes, a path is occupied as often as before plus what was created there and not over a file, minus what was removed |
| `Stability.HypothesesKept` | sync/run.go:144-149 | after any number of actions of a plan the hypotheses on the two trees hold again |
| `Resumption.ListingsKept` | sync/run.go:144-149 | after any number of actions of a plan the hypotheses on what a driver lists hold again, if outside the target and the thumbnail folder it lists no more than before and no book has the relative path of a thumbnail; the one on entries beside the target needs the latter only if the thumbnail folder is such an entry |
| `Stuck.StuckIff` | sync/prepare.go:392-415 | if all hypotheses hold but that the directory above the target may be missing, a plan stops if and only if it is missing and there is a book to copy, and then at the making of the target |
| `Interruption.LocalBookStatus` | sync/run.go:144-149 | up to wherever it stops, a run removes only local books of row 7 and changes none |
| `Interruption.DeviceBookStatus` | sync/run.go:144-149 | up to wherever it stops, a run leaves each device book as it was or as its row calls for, or half replaced |
| `Resumption.TableResumesIff` | sync/prepare.go:4-18 | planning again where the table was left off completes it, if and only if removals are ignored or no book is half replaced, and a local book or no removal from the device is left |
| `Resumption.ResumableIff` | sync/prepare.go:71-73 | planning again where a run stopped does not fail, and ends with the books of the uninterrupted run, if and only if removals are ignored or the run did not stop between the removal and the copy of a changed book, and a local book is left or none that was to be removed from the device is there; without local books the second run does nothing |
| `Protocol.SettledIff` | sync/prepare.go:4-18 | the table has nothing to do exactly when every local book is on the device unchanged and no recorded book is left over there |
| `Protocol.EmptyPlanIff` | sync/prepare.go:154-221 | a plan is empty exactly when no book is in rows 3, 6 or 7 or changed |
| `Protocol.SaveRecords` | sync/run.go:153-158 | the history that a complete run saves fits the next run, and its books are the local books |
| `Protocol.RunSettles` | sync/run.go:144-158 | a complete run leaves the three libraries settled, whether it saves or not |
| `Protocol.FixedPoint` | sync/run.go:144-158 | after a complete run that leaves a local book, planning again gives the empty plan, under either setting for removals on the device, then and now |
| `Runs.RunSaves` | sync/run.go:153-158 | a complete run that had something to do, or is the first one ever, adds a step from which its mirror of the source is read back; any other leaves the history alone |
| `Runs.RunLeavesHistory` | sync/run.go:153-158 | in every history of use something is recorded after every complete run, also after one that had nothing to do |
| `Runs.LastSave` | sync/run.go:153-158 | in every history of edits, complete and interrupted runs, the recorded books are the local books at the last save, and all of them were on the device then |
| `Runs.LocalRemovalsJustified` | sync/prepare.go:154-173 | a run removes a local book only if it was on both sides at the last save and has vanished from the device since, in an edit or an interrupted run |
| `Runs.DeviceRemovalsJustified` | sync/prepare.go:179-208 | a run removes a device book only if it was on both sides at the last save and has vanished from the source since, or is interrupted while replacing it |
| `Mailing.MailPlan` | sync/prepare.go:214-235 | over e-mail the plan is one copy for each new or changed book, in some order, and the mirror of the source is untouched |
| `Mailing.MailRuns` | sync/prepare.go:98-101 | a run over e-mail never fails, sends the contents of exactly those books, each once, and changes neither file system |
| `Mailing.MailFixedPoint` | sync/run.go:153-158 | once a complete run over e-mail is recorded, planning again gives the empty plan |
| `Planning.PrepareActions` | sync/prepare.go:54-268 | an error when there are no local books, and otherwise a state that the plan functions reach for the order in which the loops walked their maps, with the device map aliased when the target is missing |
| `Planning.Planner.MakeRemoveActions` | sync/prepare.go:322-331 | the new mirror and actions after removing a local file and the directories it empties, and no more than the file if it is in no directory |
| `Planning.Planner.MakeRemoveDirActions` | sync/prepare.go:335-350 | the new mirror and actions after the upward recursion, and whether it ends |
| `Planning.Planner.MakeCopyActions` | sync/prepare.go:355-390 | the new mirror and actions after copying an object, replacing a file that is in the way; the last action is the copy, with the name, the hash and the place of the object |
| `Planning.Planner.MakeCreateDirActions` | sync/prepare.go:392-415 | the new mirror and actions after making the target and each directory below it, from the top down |
| `Planning.Planner.Case7` | sync/prepare.go:157-172 | the loop over books removed from the device, in whatever order, is the fold of its rounds |
| `Planning.Planner.Case6` | sync/prepare.go:185-207 | the loop over books removed locally, in whatever order, is the fold of its rounds |
| `Planning.Planner.Case3` | sync/prepare.go:225-265 | the loop over books added or changed, in whatever order, is the fold of its rounds |
| `Planning.KeepThumbnails` | sync/prepare.go:117-143 | exactly the files with a thumbnail extension whose keys do not start with the key of a subdirectory, for every order in which these are met |
| `ObjectSets.ObjectInfoSet.SubsetByPath` | objects/infoset.go:84-105 | for the empty path the receiver itself, otherwise a fresh set with each selected entry under its shortened key |
| `ObjectSets.ObjectInfoSet.SubsetByFunc` | objects/infoset.go:74-82 | a fresh set with exactly the entries that the function accepts |
| `ObjectSets.ObjectInfoSet.DiffByFunc` | objects/infoset.go:110-120 | a fresh set with the receiver's entries whose keys are in both sets and that differ |
| `ObjectSets.ObjectInfoSet.Subtract` | objects/infoset.go:125-133 | a fresh set with the receiver's entries whose keys are not in the other set |
| `ObjectSets.ObjectInfoSet.Intersect` | objects/infoset.go:138-146 | a fresh set with the receiver's entries whose keys are in the other set |
| `ObjectSets.ObjectInfoSet.Union` | objects/infoset.go:149-158 | a fresh set with the entries of both, those of the other set winning |
| `ObjectSets.ObjectInfoSet.Add` | objects/infoset.go:60-65 | the map in place with the new entry, unchanged for the empty path |
| `ObjectSets.ObjectInfoSet.Delete` | objects/infoset.go:67-72 | the map in place without the entry, unchanged for the empty path |
| `Syncing.RunActions` | sync/run.go:144-149 | the actions are done in order up to the first that the host refuses, each under the path that its object has by then; a dry run does none |
| `Syncing.SyncMtp` | sync/run.go:144-159 | over an MTP device an action fails exactly when a missing target of one component is to be made or two copied books share a thumbnail that stays known; whatever happens, the run is one step of the protocol, complete if it finishes and interrupted otherwise, the device holds by its ids what that step leaves, and it holds each path once exactly if no action that was done copied over a file; the history changes as for the other driver |
| `Syncing.Sync` | sync/run.go:132-159 | over a mounted device an action fails exactly when two copied books share a page index or a thumbnail that stays known; a run that finishes is a complete run of the protocol, one whose action or save fails and a dry run are interrupted ones; without books nothing changes; a finished run that is not dry leaves a recorded step, a new one with the mirror of the source if there was an action or no step before, and otherwise the store as it was |
| `FileSystem.ExecStops` | sync/run.go:145-149 | after the first action that cannot be done nothing more is done |
| `History.Connection.SaveObjectInfos` | history/connection.go:91-125 | a save that succeeds makes a newer current step holding exactly the saved objects and leaves all other steps alone; one that fails changes nothing |
| `History.Connection.NextStep` | history/connection.go:140-147 | the new step has the next id of the counter and is the newest |
| `History.Connection.LastStep` | history/connection.go:127-138 | the greatest step id, or 0 |
| `History.Connection.GetObjectInfos` | history/connection.go:149-171 | exactly the objects of the current step |
| `History.SavesAreKept` | history/connection.go:91-125 | over any sequence of saves step ids strictly increase and what was saved is read back unchanged ever after |
| `Usb.Device.Perform` | files/device.go:66-134 | the mount point goes in front of the object's own path, and then the operating system does what it can |
| `Mounting.MountedRun` | files/device.go:66-134 | over a mounted device a plan is done to the end, leaving under the mount point the predicted device, if and only if no two copied books share a page index in the source or a thumbnail that stays known; otherwise exactly the planned actions before the first object used again are done |
| `Mounting.HostStep` | files/device.go:66-134 | under the mount point the host can do an action exactly when the device can, with the same effect |
| `Usb.Device.Run` | files/device.go:66-134 | a list of calls on objects whose paths change in place does to the host, to the objects and as its result what the run on objects says |
| `Usb.CallAddress` | files/device.go:70-107 | the path that a call asks for has the mount point in front once more than earlier calls used its object |
| `Usb.AddressesExact` | files/device.go:70-107 | every action addresses its planned path under the mount point if and only if no two actions share an object |
| `Usb.PlanAddresses` | files/device.go:70-107 | for a plan this holds exactly when no two copied books share a page index in the source or a thumbnail that stays known |
| `Mtp.EnumerateObjects` | mtp/device_linux.go:227-272 | the walk that passes over unwanted subtrees is the full pre-order walk, filtered, and appended without repeated objects |
| `Mtp.GetObjectInfos` | mtp/device_linux.go:193-208 | an error when the walk lists nothing, and otherwise for each listed path the last object listed with it, and no other keys; over distinct object ids the objects are exactly those of the full walk, filtered |
| `Mtp.WalkIs` | mtp/device_linux.go:227-272 | the full walk is in pre-order: an object comes before what is in it, and that before the objects behind it |
| `Mtp.KeepIs` | mtp/device_linux.go:237-247 | the filter keeps exactly the wanted objects, in their order |
| `Mtp.WantedIs` | mtp/device_linux.go:237-242 | wanted is what leads to the target or the thumbnail folder or starts with the text of one of them |
| `Mtp.CollectIs` | mtp/device_linux.go:249-255 | of several entries of one object the first is listed, in their order |
| `Mtp.WalkIsView` | mtp/device_linux.go:193-272 | over a device with clean names and distinct ids, what is listed describes the tree of the device, has everything at or below the target and the thumbnail folder and the directory of the target, and nothing that does not lead there |
| `Binding.MtpRun` | mtp/device_linux.go:119-191 | over an MTP device a plan is done to the end, and the device holds by its ids exactly what the plan predicts, if and only if no missing target of one component is to be made and no two copied books share a thumbnail that stays known; otherwise exactly the planned actions before the first refused one are done |
| `Once.OnceAfterRun` | mtp/device_linux.go:144-191 | after a run over an MTP device each path is there once, as the next run needs it, if and only if no action that was done copied over a file; after a complete run, if and only if no two copied books share a thumbnail that is not on the device when the copies begin |
| `MtpDevice.Device.Remove` | mtp/device_linux.go:144-157 | the object with the id of the planner's object is deleted, and the call fails if the device has none |
| `MtpDevice.Device.Create` | mtp/device_linux.go:119-191 | the parent is looked up in the map when the call runs and its id bound; the device has the new object in that folder under its name, and the object its id, or nothing changes |
| `MtpDevice.Device.Run` | mtp/device_linux.go:119-191 | a list of calls on objects whose ids are set by earlier calls leaves on the device, in the objects and as its result what the run by ids says |
| `MtpDevice.Device.RunPlan` | mtp/device_linux.go:119-191 | for the calls of a plan it succeeds exactly under the condition above, and the device holds what the plan predicts for the calls that are done, each path once exactly if none of them copies over a file |
| `FileNames.EncodeParts` | mail/device.go:62-80 | the parts are the charset and the encoded name cut between characters, none longer than 74; in each, letters, digits and the marks `-_.~$&+:=@` stand for themselves and everything else is escaped in upper-case hexadecimal digits; no way of cutting needs fewer parts |
| `FileNames.EncodeSpells` | mail/device.go:70 | every name is written as text that stands for it character by character |
| `FileNames.Utf8Is` | mail/device.go:70 | the bytes of every character, as section 3 of RFC 3629 has them |
| `FileNames.EscapedIs` | mail/device.go:70 | each byte is a percent sign and two upper-case hexadecimal digits, the high one first |
| `Disposition.EncodeContentDispositionFilename` | mail/device.go:82-88 | whoever reads the header, section by section, and decodes it gets the real name back, if the plain one has no quote in it |
| `Disposition.ReadParams` | mail/device.go:84-86 | the parameters for the parts are read as sections numbered from 0 on, with the parts as their texts |
| `FileNames.DecodeEncode` | mail/device.go:67-80 | undoing the escapes and decoding UTF-8 gives every name back |
| `FileNames.FewestParts` | mail/device.go:67-80 | cutting as late as possible needs no more parts than any other way of cutting |
| `Mobi.ReadExth` | thumbs/mobi/mobi.go:76-98 | the loop over the records gives the payloads with the wanted id in order, or stops where the code panics |
| `Mobi.HoldsShort` | thumbs/mobi/mobi.go:50-52 | two bytes are a number, the high one first |
| `Mobi.HoldsBytes` | thumbs/mobi/mobi.go:54-57 | four bytes are a signed number, the high one first |
| `Mobi.IntRange` | thumbs/mobi/mobi.go:50-57 | a number can be read exactly where all its bytes are in the slice |
| `Mobi.SectionRead` | thumbs/mobi/mobi.go:59-74 | what a section is, told by the bytes at 76 and in the table from 78 on, and when the code panics |
| `Mobi.ReadsTooFar` | thumbs/mobi/mobi.go:76-98 | the code panics when more records are announced than there is room for, and reads none when none are announced |
| `Mobi.ReadsBack` | thumbs/mobi/mobi.go:76-98 | from a header built from a list of records exactly the payloads with the wanted id are read, whatever surrounds it |
| `Mobi.SectionsTile` | thumbs/mobi/mobi.go:59-74 | with the number of sections at 76 and rising offsets at 78 and every eight bytes behind, each section is what lies between two offsets, and together they are the file from the first one on |
| `Witnesses.RawSiblingBlocks` | sync/prepare.go:335-350 | an emptied directory stays while a sibling directory starts with the text of its path |
| `Witnesses.ShortFirst` | objects/infoset.go:100 | two siblings emptied in one order leave a directory behind |
| `Witnesses.LongFirst` | objects/infoset.go:100 | the same two emptied in the other order leave none |
| `Witnesses.SharedThumbRemovedTwice` | sync/prepare.go:246-264 | two copied books with one known thumbnail name remove the same object twice |
| `Witnesses.RawKeysHide` | sync/prepare.go:107-115 | while the target is missing, a first run plans nothing if each book has the relative path of something on the device |
| `Witnesses.SameStemShares` | sync/prepare.go:274-285 | books of one directory that differ in their extension only have the same page indexes |
| `Resumption.HalfIsLost` | sync/prepare.go:154-173 | a half replaced book is lost locally when the table is applied again |
| `Resumption.LastBookLost` | sync/prepare.go:71-73 | with no local book left, a book that was to be removed from the device stays there |
| `WitnessOrders.OrderMatters` | sync/prepare.go:157-265 | one input meets every hypothesis and has two plans that leave different directories in the source, and two actions of the first share an object; without the directory above the target the same plan stops |
| `WitnessRuns.MountedRunFails` | files/device.go:85-102 | two books with one page index, a missing target, an empty history and an empty device meet every hypothesis, the plan can be done by path, and over a mounted device it fails |
| `WitnessRuns.MtpRunFails` | mtp/device_linux.go:123-126 | the same books with a missing target of one component and a device with its system folder meet every hypothesis, the plan can be done by path, and the MTP driver fails |

## Left out

- Real input and output, hashing, the database engine, mail transport and the USB and MTP libraries: a driver is what it
  enumerates and the steps it takes, a content is an opaque id, the store is a keyed table. Commit is taken to succeed
  once all inserts have.
- Errors of a driver while it enumerates, besides the empty listing of an MTP device, and anything a driver does to a
  file besides creating or removing it. Opening an existing file without truncating it arises only for a thumbnail that
  is copied again from the same file, because the planner removes what it replaces first.
- What an MTP device answers to a name that its folder has already: it is taken to accept it.
- Fields of an object that no decision reads: size, time of modification, the flag for files, storage attributes.
- Operating-system separators, path cleaning beyond joining, and symbolic links: paths are clean and slash-separated.
- Thumbnail extraction: the name and the file extracted for a book are given. Each run extracts into a directory of its
  own; in the model the directories have one name and their contents may change between runs, except that a resumed run
  finds the ones the interrupted run had.
- A change of the book extensions, of the source or of the target between runs: histories of use have one configuration.
- A target path that occurs as a recorded path in e-mail mode, where the history would be re-rooted.
- Syncing.SyncMtp: it starts from a plan and its calls on objects, where `Syncing.Sync` makes the plan itself, because
  the planner is modelled on objects that are values.
- Usb.Device.Perform: removing and making share one contract with copying, since all three prefix the path alike.
- The slug of the file name, and the mail message besides the parameters for the file name.
- Thumbnail images, KFX containers, JFIF headers, configuration, reports, the command line and device discovery.
