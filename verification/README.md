# CHOS in Dafny

A model of CHOS, the kernel module and utilities that let processes of one machine see
different operating-system trees through the link `/proc/chos/link`, and proofs about it.

`dafny verify dfyconfig.toml` checks the whole project.

## What is modelled

**The link table of the kernel module** (`kernel/chos_lkm.c`). An array indexed by pid caches,
for each process, a reference-counted link and the start second of the process it was written
for. A lookup walks up the process tree to the nearest valid slot and writes its answer into
every slot it passed.

- `Basics.dfy`: options and the zero byte, shared with the utilities.
- `Ancestry.dfy`: nearest-ancestor resolution on a tree of owners, with nothing of the kernel in it.
- `Slots.dfy`, `RefCounts.dfy`: the table as a value and the reference counts on the heap.
- `LinkTable.dfy`: the module itself, a class with the array, the heap and the list of valid paths,
  one method per function of the C file.
- `Machine.dfy`: one step per entry point, over the table, the live processes, the list of valid
  paths and the forks that are under way. A hooked fork is split in two where the code is: looking up
  the parent and letting the child run, and later finding the child by pid and setting its link.
- `Effects.dfy`: what each step does to the tree of owners.
- `Safety.dfy`: what keeps the heap safe in every run, whatever processes do while forks are under way,
  with the one exception and its exact condition.
- `Windows.dfy`, `Invariant.dfy`: the stronger invariant of runs in which no fork is disturbed.
- `Simple.dfy`, `Refinement.dfy`, `Runs.dfy`: whole runs; a machine that has only processes and texts, and the
  proof that every undisturbed run of the module answers as it does.
- `Late.dfy`: the same machine with the texts that forks under way still owe, and the proof that every safe
  run, disturbed or not, answers as that one does.
- `Dispatch.dfy`: the class, driven through a whole run, does what the machine says.
- `Tables.dfy`: slot by slot, link by link and path by path, what each entry point leaves behind, and the list of
  valid paths over whole runs.
- `Inheritance.dfy`, `History.dfy`, `Failures.dfy`: what a child keeps, where links come from, exactly
  when inheritance fails, and concrete states in which it does.

**Trapping `do_fork`** (`Patch.dfy`): moving a function's first bytes to a trampoline, two relative
jumps, and the undoing of both, on bytes.

**Configuration** (`CText.dfy`, `ConfigReader.dfy`, `LongLines.dfy`, `Pam.dfy`, `Pipe.dfy`): the readers
of the configuration files in the PAM module and the `chos` utility, on real line buffers filled by
`fgets`; the PAM module's choice of an environment; and the pipe between its child and its parent.

## Assumptions

- `set_link`, `reset_link`, `lookup_link` and `cleanup_links` are each one indivisible step. In the C
  code the decrement and the test for zero are two atomic operations (`kernel/chos_lkm.c:228-229`), so
  nothing is said about interleavings inside them.
- One pid namespace; live processes have distinct pids; a parent is born before its children, and
  orphans go to pid 1, so the parent relation has no cycles. Processes are numbered in order of birth.
- Every pid is below the size of the table. The guards at `kernel/chos_lkm.c:251`, 326 and 472 let a pid
  equal to the size through, which would be one past the array.
- Allocation succeeds. An address may be handed out again as soon as its link has been freed.
- A process inside `do_fork` takes no other step until `do_fork` returns.
- In runs of the machine the parent of a new process is the process that forked. clone with CLONE_PARENT or
  CLONE_THREAD makes it the caller's parent; `ChosDoFork` covers that for a single fork.
- A fork without the hook, and a hooked fork whose child runs before the link is set, rely on start
  seconds: no (pid, second) pair occurs twice. The atomic fork does not need this.
- Two kinds of exit. The exit hook is compiled under `#ifdef SCT` (`kernel/chos_lkm.c:159`, 775, 940 and 1186),
  which nothing in the repository defines, and with it a death by signal still bypasses it. `Exit` is an exit
  through the hook, `Vanish` one without; every result on runs covers both in any mixture.
- Two kinds of run. In a *safe* run every step is one the kernel may take and no fork's return lands on a
  process that is itself inside `do_fork` with another link (`ReturnSafe`): heap safety, what the class does,
  the refinement of `Late.dfy` and inheritance are proved for all of these. `ReturnBackedIff` says that this
  condition is exact for one return, and `FreedLinkIsStored` is a run without it that stores a freed link.
- In a *legal* run moreover (`Undisturbed`), while a hooked fork is under way its child writes neither setchos
  nor resetchos, its child's pid is not given to another process, and, if the forking process had no link,
  none of the processes its lookup passed gets one. Only the refinement to the machine without forks under way
  needs this. `ReturnInvisibleIff` says for all states what a return changes, `ChoiceInWindowIsLost` gives a
  state in which a choice is lost.
- Memory is flat, `long` has eight bytes (x86_64), address arithmetic does not wrap, and the opcode table
  has at least LENGTH bytes.
- Characters stand for bytes; `char` is signed. `read` and `fgets` return everything that is there up to
  their limit.

## Where code and documentation differ

- `pam_chos/pam_chos.8` does not mention `$CHOS` as a source of the name and describes `fail_to_default`
  the other way round in its search list. The model follows the code.
- The comment at `pam_chos/pam_chos_util.c:73` allows `/` in paths; the comparison at line 79 allows every
  byte from `/` to 127. The model follows the code, and a character-set claim is made for names only.
- The comment at `kernel/chos_lkm.c:278-280` says cleanup is periodic; it happens on writes only.
- `kernel/chos.h:104-105` says all children refer to their parent's link. A process that has looked and found
  one keeps its answer when any ancestor later chooses again; one that has not looked follows (`LookIsRemembered`).
- When the jump back is too far, `init_do_fork` returns without restoring the page-table entry
  (`kernel/chos_lkm.c:1065-1070`); the contract of `InitDoFork` says so.

## Model

| member | source | states |
|---|---|---|
| Ancestry.PinInvisible | kernel/chos_lkm.c:307-344 | leaving an answer with every process a walk passed changes the answer of no process |
| Ancestry.ExitInvisible | kernel/chos_lkm.c:1187-1197 | once all children have looked, removing their parent and handing them to init changes no survivor's answer, however deep |
| Ancestry.LookIsRemembered | kernel/chos_lkm.c:330-341 | a later choice of any other process reaches a descendant if and only if nobody in between owns a link; it never reaches one that has looked and found something |
| Ancestry.WalkIffReaches | kernel/chos_lkm.c:330-334 | a walk passes exactly the processes without a link below the first that has one |
| Slots.ResolveIsFind | kernel/chos_lkm.c:313-344 | the nearest valid slot up the tree, by pid and start second, is the nearest owning ancestor |
| Slots.OwnCompress | kernel/chos_lkm.c:330-341 | on the tree of owners a lookup does exactly a pin along its walk, stale and cleared slots included |
| Slots.CompressInvisible | kernel/chos_lkm.c:313-344 | path compression: after a lookup of t every live u resolves to the same link as before |
| Slots.CompressTwice | kernel/chos_lkm.c:1130-1159 | a second lookup of the same process changes no slot (the path of a failed fork) |
| Slots.CompressExact | kernel/chos_lkm.c:330-341 | for exactly the processes on its walk a lookup writes its answer under their own second, or clears the slot if it found nothing, stale links included; every other slot is untouched |
| Slots.CompressAllExact | kernel/chos_lkm.c:1187-1197 | after the lookups of all children: the slot of every process on one of their walks holds its own answer or nothing, and no other slot changed |
| RefCounts.DropKeepsCounts | kernel/chos_lkm.c:218-233 | dropping a cleared slot's reference keeps all counts exact and frees the link exactly when no slot is left |
| RefCounts.SafeToSetIff | kernel/chos_lkm.c:255-268 | a link survives set_link's own reset if and only if it is held by no slot yet or by a slot other than the one written |
| RefCounts.TakenExact | kernel/chos_lkm.c:238-276 | after set_link each count is the number of slots holding the link and the heap is exactly what slots hold |
| LinkTable.Clip | kernel/chos_lkm.c:412-423 | the written path ends at the count, the first newline or the first zero byte, whichever comes first |
| LinkTable.Chos.constructor | kernel/chos_lkm.c:750-765 | a table of pid_max slots, all without a link and with start second -1, and an empty heap |
| LinkTable.Chos.CreateLink | kernel/chos_lkm.c:188-199 | a new link with count zero that no slot holds |
| LinkTable.Chos.DestroyLink | kernel/chos_lkm.c:206-212 | frees the link if and only if its count is zero |
| LinkTable.Chos.ResetLink | kernel/chos_lkm.c:218-233 | clears one slot, keeps counts and texts, and frees what only this slot held |
| LinkTable.Chos.SetLink | kernel/chos_lkm.c:238-276 | the slot holds the link and the start second, counts stay exact, nothing leaks |
| LinkTable.Chos.CleanupLinks | kernel/chos_lkm.c:281-304 | exactly the slots no live process can claim are cleared |
| LinkTable.Chos.CleanupSlot | kernel/chos_lkm.c:289-301 | one turn of the loop: cleared if the pid is free or its process started at another second |
| LinkTable.Chos.LookupLink | kernel/chos_lkm.c:313-344 | terminates, returns Resolve, leaves its answer or a cleared slot for every process it passed, counts exact, no use of a freed link |
| LinkTable.Chos.LinkReadlink | kernel/chos_lkm.c:637-670 | the text of the resolved link, "/" when there is none |
| LinkTable.Chos.IsValidPath | kernel/chos_lkm.c:622-633 | membership in the list of valid paths |
| LinkTable.Chos.WriteValid | kernel/chos_lkm.c:552-603 | only root changes the list; a leading '-' empties it, anything else appends one path at its end |
| LinkTable.Chos.ReadPath | kernel/chos_lkm.c:412-423 | the scanning loop computes Clip |
| LinkTable.Chos.GiveLink | kernel/chos_lkm.c:434-436 | sweep, create and set together: the caller's slot holds the new link and the heap exactly what slots hold |
| LinkTable.Chos.WriteSetchos | kernel/chos_lkm.c:406-464 | accepted text: sweep, new link in the caller's slot, exact heap; otherwise ENOENT and nothing changed |
| LinkTable.Chos.WriteResetchos | kernel/chos_lkm.c:470-478 | a slot is filled afterwards if and only if it was, is not the caller's, and a live process has its pid and second; those are unchanged |
| LinkTable.Chos.ForkReturn | kernel/chos_lkm.c:1145-1156 | whoever is found under the child's pid gets the parent's link, nobody if no one is found |
| LinkTable.Chos.ChosDoFork | kernel/chos_lkm.c:1119-1162 | atomic fork: the child's slot holds what the forking process resolves to, whoever the child's parent is; a failed fork is one lookup |
| LinkTable.Chos.MySysExit | kernel/chos_lkm.c:1187-1209 | the loop over the children leaves the slots as successive lookups do |
| LinkTable.SweepAt | kernel/chos_lkm.c:294-301 | the test of the loop is the declarative notion of a stale slot |
| LinkTable.ParentHolds | kernel/chos_lkm.c:332-334 | call site in lookup_link: the parent's slot, not the one written, holds the link passed to set_link |
| LinkTable.AnswerHeld | kernel/chos_lkm.c:1130-1154 | call site in chos_do_fork: the forking process's own slot holds the link |
| Machine.InitialInv | kernel/chos_lkm.c:750-768 | a freshly loaded module satisfies the invariant |
| Effects.ForkOwners | kernel/chos_lkm.c:1130-1155 | a child owns what its parent resolves to, whatever an earlier process left in its slot |
| Effects.NotCached | kernel/chos_lkm.c:269-274 | a slot left behind never matches a (pid, second) that has not occurred |
| Windows.AllKeptByExit | kernel/chos_lkm.c:1187-1197 | exits of others, and of the awaited child, keep what a fork under way relies on |
| Windows.AllKeptByVanish | kernel/chos_lkm.c:1186-1210 | an exit that bypasses the hook keeps what a fork under way relies on, though it may take links from others |
| Windows.AllKeptByEnter | kernel/chos_lkm.c:1130-1143 | entering a fork leaves the answer in the parent's slot, and other windows stay good |
| Invariant.SetchosKept | kernel/chos_lkm.c:406-464 | a legal write to setchos keeps the invariant |
| Invariant.ForkReturnKept | kernel/chos_lkm.c:1145-1156 | the late set_link of a fork keeps the invariant |
| Invariant.ExitKept | kernel/chos_lkm.c:1187-1209 | a hooked exit keeps the invariant |
| Invariant.VanishKept | kernel/chos_lkm.c:1186-1210 | an exit that bypasses the hook keeps the invariant |
| Invariant.StepKnown | kernel/chos_lkm.c:188-478 | every enabled step, legal or not: each filled slot was written for a (pid, second) of the run |
| Invariant.StepKept | kernel/chos_lkm.c:188-478 | every legal step keeps: heap exactly what slots hold, slots only of processes of the run, windows intact |
| Safety.BackedHeld | kernel/chos_lkm.c:1153-1155 | call site of the late set_link: while the waiting parent's own slot has its link, the link is live and held by a slot other than the one written |
| Safety.ReturnSoundIff | kernel/chos_lkm.c:1145-1155 | in every state: a return leaves no slot with a freed link if and only if nobody is found or the remembered link is on the heap |
| Safety.StepSound | kernel/chos_lkm.c:188-478 | no other step ever stores a freed link or leaks one |
| Safety.ReturnBackedIff | kernel/chos_lkm.c:1145-1155 | a return stores a live link, and afterwards every other waiting parent still has its link if and only if the process found was not itself waiting with another one |
| Safety.SafeKept | kernel/chos_lkm.c:188-478 | every enabled step, with that condition on returns alone, keeps the heap exact and every waiting parent its link |
| Safety.LegalIsSafe | kernel/chos_lkm.c:1145-1155 | undisturbed forks meet that condition |
| Dispatch.ServeWriter | kernel/chos_lkm.c:672-711 | the class's /proc entry points change table, counts and list and answer as the machine says |
| Dispatch.ServeHook | kernel/chos_lkm.c:1119-1209 | the class's fork and exit hooks change table and counts as the machine says, and what a caller remembers across do_fork is what the machine remembers |
| Dispatch.ServeRun | kernel/chos_lkm.c:188-1209 | a whole safe run on the real array and heap: slots, texts, list, windows and replies are the machine's and every count is exact after every step |
| Simple.RenderStep | kernel/chos_lkm.c:637-670 | owning links and owning their texts evolve alike |
| Refinement.SettledAnswers | kernel/chos_lkm.c:313-344 | owners plus links still to be set give every live process the table's answer |
| Refinement.StepSettled | kernel/chos_lkm.c:188-478 | each step of the module is one act on the tree of owners; a fork's return is none |
| Refinement.StepRefines | kernel/chos_lkm.c:406-670 | one legal step is one event of the simple machine, with the same reply |
| Runs.RunKept | kernel/chos_lkm.c:188-478 | the invariant holds after every legal run, and every legal run is safe |
| Runs.RunSafe | kernel/chos_lkm.c:188-478 | from any sound state in which waiting parents have their links, every safe run ends in one |
| Runs.HeapSafety | kernel/chos_lkm.c:188-478 | after every safe run from load, choices, forks and exits inside windows included, the heap is exactly what slots hold, and every answer and every link a fork under way remembers is on it |
| Runs.SafeRunGrows | kernel/chos_lkm.c:188-478 | no safe run gets stuck: every enabled step with the condition on returns extends it |
| Runs.RunRefines | kernel/chos_lkm.c:637-670 | over every legal run all replies, in particular all texts read, are those of the simple machine |
| Late.OwedTexts | kernel/chos_lkm.c:1130-1155 | while a parent is inside do_fork no step changes the text of the link it remembers, even if addresses are handed out again |
| Late.StepLate | kernel/chos_lkm.c:188-670 | one safe step is one deed of the machine with debts, with the same reply |
| Late.RunLate | kernel/chos_lkm.c:637-670 | over every safe run, windows disturbed or not, all replies are those of a machine of processes and texts in which a return gives whoever is found the text the parent had at entry |
| Runs.ReadInvisible | kernel/chos_lkm.c:313-344 | a read changes no answer and frees no link that is an answer |
| Runs.ExitInvisibleToSurvivors | kernel/chos_lkm.c:1187-1209 | the exit hook: every surviving process resolves to the same link |
| Runs.BareExitIff | kernel/chos_lkm.c:1186-1210 | without the hook that holds if and only if the exiting process resolves to nothing or all its children have valid slots |
| Runs.SweepExact | kernel/chos_lkm.c:281-304 | cleanup clears exactly the filled slots that no live process with that pid and second can claim, leaves all others as they are, changes no answer, and frees exactly the links no such slot held |
| Tables.ResetchosSlot | kernel/chos_lkm.c:470-478 | the same of the machine: exactly the valid slots of live processes other than the caller stay |
| Tables.ResetchosHeap | kernel/chos_lkm.c:470-478 | a link stays on the heap, with its text, if and only if another live process has it in a valid slot |
| Tables.SetchosSlot | kernel/chos_lkm.c:428-464 | an accepted write: the caller's slot has the new link and its second; every other slot is filled if and only if it was and a live process can claim it |
| Tables.SetchosHeap | kernel/chos_lkm.c:428-464 | the heap then is the new link with the written text and what other live processes have in valid slots |
| Tables.ReadlinkHeap | kernel/chos_lkm.c:313-344 | a lookup frees exactly the links that only slots on its walk had held |
| Tables.ForkSlot | kernel/chos_lkm.c:1130-1155 | an atomic fork: the child's slot has the answer under the child's second, the others are as a lookup leaves them |
| Tables.ReturnSlot | kernel/chos_lkm.c:1145-1155 | a return: the slot of whoever is found has the remembered link or none under that process's second, no other slot changes |
| Tables.ValidList | kernel/chos_lkm.c:552-603 | the list position by position after a write to valid |
| Tables.AcceptedAfterIff | kernel/chos_lkm.c:424-464 | which writes to setchos are accepted after a write to valid, in both directions |
| Tables.ListedIff | kernel/chos_lkm.c:552-633 | over every run: a path is valid if and only if root wrote it, or it was there at the start, and root has not emptied the list since |
| Inheritance.KeepsStep | kernel/chos_lkm.c:1130-1155 | one safe step of anyone - no accepted write by a member, no return that brings a member another link - leaves every living family member its link and text |
| Inheritance.FrozenInheritance | kernel/chos_lkm.c:1130-1159 | a child and all its descendants by hooked forks keep the link and text their ancestor's parent had at the fork, through the window and any such safe run, other windows disturbed or not |
| Inheritance.FrozenByReading | kernel/chos_lkm.c:330-341 | a process that has read, and its later children, keep that answer over any such run |
| Inheritance.LegalReturnIsQuiet | kernel/chos_lkm.c:1145-1155 | while forks are undisturbed no return brings a member another link |
| History.Provenance | kernel/chos_lkm.c:406-464 | in every enabled run, safe or not: every link on the heap was written by a step of the run, with a text allowed at that time |
| History.EveryReadWasAllowed | kernel/chos_lkm.c:527-670 | in every enabled run, safe or not: whatever is read is "/" or was on the list of valid paths when it was written, whatever happened to the list since |
| History.EveryReadWasListed | kernel/chos_lkm.c:406-633 | from load to read: whatever is read is "/", or was written to setchos after root had listed it and before root emptied the list |
| History.ForkIgnoresOldSlot | kernel/chos_lkm.c:1145-1155 | with the hook a reused pid answers as its parent, not as the pid's earlier owner |
| History.SpawnAnswersIff | kernel/chos_lkm.c:269-274 | without it that holds if and only if the slot does not hold another link under the same start second |
| History.ReturnInvisibleIff | kernel/chos_lkm.c:1145-1155 | in every state, whoever but init is found under the pid: a fork's return changes nobody's answer if and only if that process has the link in its slot already, or an empty slot and a parent resolving to it |
| Failures.ChoiceInWindowIsLost | kernel/chos_lkm.c:1153-1155 | a state of the invariant in which a child's choice is overwritten by the return of its own fork |
| Failures.FreedLinkIsStored | kernel/chos_lkm.c:1145-1155 | a run in which the return of one fork frees the link that the return of a nested fork then stores |
| Failures.BareExitLosesLink | kernel/chos_lkm.c:1186-1210 | a state in which an exit without the hook takes a child's link away |
| Failures.StaleSlotAnswers | kernel/chos_lkm.c:269-274 | a state in which a dead process's slot answers for a new one |
| Patch.Kernel.SetPteval | kernel/chos_lkm.c:978-1007 | returns the old entry; sets the write bit, or restores the value given |
| Patch.Kernel.CheckCode | kernel/chos_lkm.c:1021-1034 | true exactly if all LENGTH bytes of the function are the expected ones |
| Patch.Kernel.MoveCode | kernel/chos_lkm.c:1036-1051 | placeholder and then the function's bytes at the trampoline, nothing else changed |
| Patch.Kernel.JumpBack | kernel/chos_lkm.c:1056-1070 | the jump at the trampoline's end, with its displacement exactly if it is below 0xffffff |
| Patch.Kernel.BuildTrampoline | kernel/chos_lkm.c:1036-1070 | the trampoline holds the function's first bytes and the jump, with its displacement if below 0xffffff |
| Patch.Kernel.HookFunction | kernel/chos_lkm.c:1072-1082 | the function starts with a jump to the wrapper; written only while the page is writable |
| Patch.Kernel.InitDoFork | kernel/chos_lkm.c:1010-1090 | success exactly if the code matches and the jump back is below 0xffffff; memory and page entry in all three outcomes |
| Patch.Kernel.CleanupDoFork | kernel/chos_lkm.c:1093-1114 | copies the trampoline's bytes back and restores the page entry |
| Patch.DecodeIff | kernel/chos_lkm.c:1059-1082 | the four bytes a JMP rel32 reads of the stored long give the displacement if and only if it fits in 32 bits |
| Patch.LongMeaning | kernel/chos_lkm.c:1059-1082 | all eight bytes of the stored long read back as the displacement modulo 2 to the 64 |
| Patch.TrampolineMeaning | kernel/chos_lkm.c:1049-1082 | entry goes to the wrapper, the trampoline has the original bytes and then goes to END, each if and only if its displacement fits |
| Patch.RoundTripIff | kernel/chos_lkm.c:1010-1114 | patch and restore give back every byte outside the trampoline if and only if LENGTH is at least 1 + sizeof(long) or the bytes overwritten past END happen to be equal |
| Patch.Kernel.LoadAndUnload | kernel/chos_lkm.c:769-938 | the same on the real memory, from init_do_fork to cleanup_do_fork in all three outcomes, with the page entry left behind |
| Patch.FailureLeavesFunction | kernel/chos_lkm.c:1065-1070 | the failing exit after the trampoline was built has touched nothing outside the trampoline, in particular not the function |
| CText.ChunkLen | pam_chos/pam_chos_util.c:89-91 | fgets takes bytes through the first newline, or as many as fit, or all |
| CText.LinesByPiece | pam_chos/pam_chos_helper.c:218-226 | piece by piece: one that starts with '#' or is a bare newline is skipped, any other is a line up to its newline or zero byte |
| CText.WholeLinesByLine | pam_chos/pam_chos_helper.c:218-226 | line by line: empty lines and lines that start with '#' are skipped |
| CText.SectionByPosition | pam_chos/pam_chos_helper.c:227-247 | a section is what lies between its first heading and the next line starting with '%' |
| CText.PiecesAreLines | utils/chos.c:333-342 | reading in pieces is reading by lines when no line is longer than a piece, even if its newline does not fit |
| ConfigReader.Fgets | pam_chos/pam_chos_helper.c:218-220 | the buffer holds the piece and a zero; false exactly at the end of the file |
| ConfigReader.StripNewline | pam_chos/pam_chos_helper.c:223-226 | the buffer holds the line up to its first newline or zero byte |
| ConfigReader.NextLine | pam_chos/pam_chos_helper.c:218-226 | one piece into the buffer, comments and blank lines skipped, newline replaced in place |
| ConfigReader.NextItem | utils/chos.c:183-199 | one turn of the reading loops against what is left of the section |
| ConfigReader.SplitLine | pam_chos/pam_chos_helper.c:230-243 | splitting in place at the first colon yields the path exactly when the part before it is the name |
| ConfigReader.CheckChos | pam_chos/pam_chos_helper.c:216-250 | the path of the first line of the section that names the name, nothing if none does |
| ConfigReader.FirstPathByPosition | pam_chos/pam_chos_helper.c:227-247 | first match by position; no answer exactly when no line names the name |
| ConfigReader.LookupBound | pam_chos/pam_chos_helper.c:217-243 | a name found, a colon and its path together have at most as many bytes as a piece |
| ConfigReader.VersionsAgree | utils/chos.c:332-365 | both versions of check_chos agree with each other and with reading whole lines if no line has more than 79 bytes |
| LongLines.VersionsPartWays | utils/chos.c:332-365 | with a line of 80 bytes they give different paths |
| ConfigReader.SetBeh | utils/chos.c:263-302 | true exactly if BASHLOGIN is a line of the %BEH section |
| ConfigReader.CountLines | utils/chos.c:180-200 | one more than the lines of the %ENV section and the mark that ends it |
| ConfigReader.CountedByPosition | utils/chos.c:180-200 | that count by position: from the first heading to the mark, the mark included if there is one |
| ConfigReader.StoreEntry | utils/chos.c:224-239 | stores the entry of one name inside the array and keeps file order |
| ConfigReader.EntriesInOrder | utils/chos.c:208-244 | entries of two stretches of names are the entries of the first followed by those of the second |
| ConfigReader.EntriesExactly | utils/chos.c:224-239 | something is an entry if and only if it is the default path and PATH is listed, or NAME=value for a listed name other than PATH that is set |
| ConfigReader.EntryCount | utils/chos.c:224-239 | a listed name stands for exactly one entry if it is PATH or set, and for none otherwise |
| ConfigReader.FillEnv | utils/chos.c:208-244 | every store is inside the array sized by the first pass although the guard's count keeps growing |
| ConfigReader.SetEnv | utils/chos.c:160-254 | the entries in file order and a terminator, which always fits: the default path for PATH whatever the caller's is, the caller's value for every other listed name that is set, nothing else |
| Pam.SanitizeStr | pam_chos/pam_chos_util.c:55-68 | replaces in place; clean exactly if every byte was a newline or valid |
| Pam.ScrubCharIs | pam_chos/pam_chos_util.c:55-87 | names keep exactly the documented alphabet, paths exactly '-', '.' and the bytes from '/' to 127; a newline becomes a zero, anything else '_' |
| Pam.SanitizedBuffer | pam_chos/pam_chos_util.c:55-87 | a sanitised buffer reads as the text up to its first newline with odd bytes replaced |
| Pam.ParseArgs | pam_chos/pam_chos_helper.c:63-103 | fails exactly if some fail_to_default has a value other than 0 or 1; otherwise the last argument of each kind decides |
| Pam.GoodArgIff | pam_chos/pam_chos_helper.c:80-97 | an argument is bad exactly if it gives fail_to_default a value that starts with neither 0 nor 1 |
| Pam.LastFailByPosition | pam_chos/pam_chos_helper.c:80-97 | the last fail_to_default by position decides; without one it is off |
| Pam.LastFileByPosition | pam_chos/pam_chos_helper.c:69-78 | the last user_conf_file by position decides, cut at 256 bytes; without one it is .chos |
| Pam.ReadText | pam_chos/pam_chos_helper.c:280-328 | negative exactly if closing failed; otherwise the buffer holds the bytes read, or "default" |
| Pam.EndAtNewline | pam_chos/pam_chos_helper.c:330-335 | the string in the buffer ends at its first newline, inside the buffer even if it is full |
| Pam.ReadChosFile | pam_chos/pam_chos_helper.c:253-340 | all stores inside the buffer; the buffer holds the sanitised first line, or "default" if nothing was read |
| Pam.ChooseName | pam_chos/pam_chos_helper.c:123-137 | $CHOS if set and at most 80 bytes, else the user's file, else "default" |
| Pam.ChosenNameIs | pam_chos/pam_chos_helper.c:123-137 | byte by byte: from $CHOS alone if it is set and has at most 80 bytes, else from the bytes of the user's file alone, else "default" |
| Pam.CleanNameIsRead | pam_chos/pam_chos_helper.c:280-340 | a file whose first line is a clean name gives that name |
| Pam.CheckConf | pam_chos/pam_chos_helper.c:202-215 | no entry if the configuration cannot be read, the lookup otherwise |
| Pam.ChoosePath | pam_chos/pam_chos_helper.c:144-167 | the first line that names the name; if none does, the name itself, or, if it is "default" or fail_to_default is set, the first line that names "default", or a null path |
| Pam.GetChosInfo | pam_chos/pam_chos_helper.c:105-190 | when it fails, when it is left with a null path, and exactly what it writes otherwise |
| Pam.ChosenNameIsClean | pam_chos/pam_chos_util.c:55-87 | the chosen name has at most 80 bytes, all of them name characters, whatever was asked for |
| Pam.ChosenPathCases | pam_chos/pam_chos_helper.c:144-167 | the same of the specification, in every case and by position; a null path exactly if the default is wanted and missing |
| Pipe.RetrieveFromChild | pam_chos/pam_chos_util.c:93-123 | two lines of at most 79 bytes, in order, or failure if one is missing |
| Pipe.OpenSession | pam_chos/pam_chos.c:173-190 | what the session uses: both lines, sanitised again |
| Pipe.ReceivedByPiece | pam_chos/pam_chos_util.c:93-123 | the first piece is the path and the second the name; nothing is received if there is no second piece |
| Pipe.PipeRoundTripIff | pam_chos/pam_chos_helper.c:177-181 | name and path are recovered if and only if the path has at most 78 bytes and the name at most 79, or the path has 79 and the name is empty |
| Pipe.RecognisedArrives | pam_chos/pam_chos_helper.c:216-247 | a recognised name always satisfies that, the empty one included |
| Pipe.NameAsPathIff | pam_chos/pam_chos_helper.c:161-166 | a name passed on as its own path arrives if and only if it has at most 78 bytes |
| Pipe.DefaultPathIff | pam_chos/pam_chos_helper.c:151-159 | with the default entry's path, if and only if the name has at most 79 |
| Pipe.ChoiceArrives | pam_chos/pam_chos_helper.c:105-190 | from request to session: a recognised choice is what the session gets |

## Left out

- Interleavings inside `reset_link` and `set_link`: whole operations are the steps.
- chroot, capabilities, `set_fs_root` and `is_chrooted`: kernel calls the table does not depend on.
- Creation of /proc entries, loading, unloading and the hand-over of saved state.
- Freeing of texts that were rejected (`kernel/chos_lkm.c:441-450`): conservation is claimed for links.
- Failed allocations; a failed `create_link` would make `write_setchos` clear the caller's slot.
- 32-bit kernels, where a `long` has four bytes and addresses wrap.
- What the moved instructions do at their new address: the trampoline is compared byte by byte.
- PAM calls, privileges, fork, wait and pipe system calls, syslog, file ownership: parameters or left out.
- The 40-byte limit on the value put into the session's environment (`pam_chos/pam_chos.c:199`).
- `main`, `get_multi`, `set_multi`, argument handling and version printing of the utility, the job starters
  and the shell scripts: thin wrappers.
- Runs of forks whose child gets another parent than the caller (CLONE_PARENT, CLONE_THREAD).
- Invariant.SetchosKept: assumes `Undisturbed`, because `WindowOk` is false after a child has
  written in its own window (`ChoiceInWindowIsLost`); what holds without it is `SafeKept`.
- Invariant.StepKept: assumes `Undisturbed` for the same reason.
- Refinement.StepSettled: assumes `Undisturbed`; the exact condition for a return to be no act is `ReturnInvisibleIff`,
  and `StepLate` is the step without it.
- Refinement.StepRefines: assumes `Undisturbed`; without it the simple machine's replies are not the module's
  (`ChoiceInWindowIsLost`), and `StepLate` says which are.
- Runs.RunKept: assumes `Undisturbed`; what holds of every safe run is `RunSafe` and `RunKnown`.
- Runs.RunRefines: assumes `Undisturbed`, which is sufficient and not necessary; `RunLate` needs no such condition.
