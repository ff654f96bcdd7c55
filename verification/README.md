# Persistent device naming and the update handshake, verified

A Dafny model of three groups of shell scripts of the camera's root file system, with
proofs about everything they can do together:

- **The udev rule generators.** `write_net_rules` and `write_cd_rules` are started by udev,
  any number at a time, to append a naming rule for a new network interface or optical
  drive. They share a `mkdir` lock with a bounded retry, a rules file, a temporary rules
  file for when the rules directory is not writeable, a scanner built on `sed`, and an
  allocator of the next free name.
- **The sysfs walker.** `path_id` climbs from a device towards the root of sysfs, arm by arm
  of one `case`, and collects the identifier that names the device's place in the hardware.
- **The update handshake.** `update_backend.sh` obeys a user interface over its standard
  input, launches `zcat | dd` in the background, polls it, and shuts the camera down.

The scripts work by changing variables and files step by step, so they appear as methods
over the fields of classes (`Generator.Process`, `Walker.Walker`, `Updater.Update`), proved
against functions on values; what the scripts are for is then proved about those functions
and about state machines built from the same functions.

| module | content |
|---|---|
| `Text` | numerals as `test` and `$((...))` read them, word splitting and joining |
| `Allocator` | `raw_find_next_available` |
| `Rules` | the lines of a rules file, their text, and the `sed` scan of that text |
| `Scripts` | both scripts as functions from a request and the files to the lines to write |
| `Turns` | what one run writes is fresh |
| `Udev`, `Conditions` | how udev reads a rule, and which devices the written rules apply to |
| `Serial` | one run after the other, and what a run is given |
| `Reversion`, `Reach` | when serial runs keep all names distinct, exactly, and that condition in plain terms |
| `Protocol`, `Guarantees`, `Stopped`, `Schedules` | any interleaving of any number of runs |
| `Generator` | the scripts as they run, with globals and files as fields |
| `Glob` | shell patterns and parameter expansions |
| `PathId`, `Climbing`, `Identity`, `Lun` | `path_id` as a function, its termination, its identifiers |
| `Paths`, `Hardware`, `Usb`, `Buses`, `Endpoints`, `Sas` | which arm each kind of device takes, and its identifier spelt out |
| `Inputs` | inputs of `path_id` with unwelcome outcomes, on the paths of a running system |
| `Walker` | `path_id` as it runs |
| `Backend`, `Updater` | the update handshake as a machine, and the script as it runs |

## What turned out

- **Names do not always stay unique, and it is known exactly when.** Which file a run
  reads and writes is decided by a probe, the creation of `.is-writeable` in the rules
  directory. A comment (`rule_generator.functions:58`) says both files are checked when
  looking for existing rules; the code checks the real file alone when the probe succeeds
  (`rule_generator.functions:64`), and the model follows the code. So a name in the
  temporary file, left there at the start or written by a refused run, can be given out
  again by a run that is not refused.
  - For runs that compete for the same names (any drives, or interfaces of one kernel name)
    and any starting files with distinct names, the names stay distinct if and only if every
    run that is let in fits in: it is given nothing of the starting temporary file, and no
    run before it was refused, unless the starting temporary file makes a refused run choose
    otherwise (`Guarantees.NamesUniqueExactly`; for drives in numbers,
    `Guarantees.CdNamesUniqueExactly`).
  - If the temporary file is behind, in particular if it has no rules, this says that the
    directory is never found writeable again after it was found not writeable
    (`Guarantees.BehindNamesUniqueExactly`).
  - For interfaces of any kernel names the condition is on the sequence of answers: all
    requests are safe if and only if the answers never revert and, unless all runs are
    refused, the names left in the temporary file are out of reach
    (`Reach.NetAnswersExactly`, and for all schedules `Schedules.NetSchedulesExactly`).
- **One script by itself**, with `/dev/.udev/` present and a fixed permission of the
  directory: if the directory is not writeable, names always stay unique; if it is writeable,
  they do so in every schedule if and only if no name left in the temporary file can be
  reached from the names in the real file (`Guarantees.AloneNamesStayUnique`,
  `Schedules.AloneUniqueExactly`). For drives there is also an equivalence that does not ask
  the starting files to have a cdrom link for every number (`Reach.NoneBeyondExactly`). A file with one leftover rule shows it can fail
  (`Reach.LeftoverInput`, `Schedules.LeftoverRepeated`).
- **The two scripts together are not safe** even from an empty temporary file: they lock
  different names but probe the same link, so one script's probe can refuse the other's
  although the directory is writeable (`Schedules.ProbeRace`). Without `/dev/.udev/` there is
  no lock and two runs can collide (`Schedules.NoLockRace`). Both hold for either script.
- **A leading zero can defeat the allocator**: `test` reads `010` as ten, `$((...))` as eight
  (`Allocator.LeadingZeroCollides`). All lists whose largest numeral is written in a given
  way get a fresh name if and only if the two readings of that numeral agree
  (`Allocator.FreshExactly`), as they do for every numeral without a leading zero.
- **The rules written apply to exactly the devices they were asked for**, by udev's own reading
  of their text (`Conditions.NetRuleApplies`, `Conditions.CdRuleApplies`), the asking device
  among them (`Conditions.OwnCard`, `Conditions.OwnDrive`).
- **Each kind of device has the identifier its place calls for**: which arm of the `case` takes
  it when several patterns match, its segment with the port counted from the controller's
  first, and what is printed in the end (`Hardware`, `Usb`, `Buses`, `Endpoints`, `Sas`). A SCSI
  tape under a controller no arm knows prints no suffix (`Hardware.ScsiAlone`), since the arm
  for the rest returns from the whole function (`path_id:538-541`).
- **The climb of `path_id` can loop for ever**, at a firewire node without an identifier and
  at a SAS node without a `/target`, `/port` or `/host` component, and nowhere else
  (`Climbing.EndsExactly`). Seen from the tree: the loop ends on the device and on every
  directory above it, whatever the variables held before, if and only if none of them is
  such a node (`Climbing.EndsStatically`). `Inputs.FirewireRunsForEver` and
  `Inputs.RunsForEver` are inputs without end.
- **Two SCSI devices of one controller can get one identifier**, and it is known exactly when:
  if and only if, leaving the suffixes of tapes aside, the climb from the controller comes to
  a pci directory with a block link to a cciss disk (`Identity.SiblingsDiffer`). There the
  script assigns the disk's name where all other arms put a segment in front (`path_id:83`),
  and so forgets the device. Behind such a controller every device gets the name of the
  controller's last disk (`Inputs.OneNameForAll`).
- **`WriteDone` can be said before `dd` has begun**, if the poll comes first; it is right
  exactly when `dd` had begun by then (`Backend.QuietExactly`).
- The test for a zero LUN in `path_id` uses `((...))`, which a POSIX shell may not take for
  arithmetic. It does not matter: both branches print the same (`Lun.ZeroAgrees`).

The assumptions under which uniqueness is proved are the requirements of the lemmas:
interface names have a stem that is not empty and contains no `.`, and end in no numeral
with a leading zero (`Scripts.ValidRequest`); values put into rules contain no blank, comma or
quote (and, where the devices a rule applies to are concerned, no character that is special
in udev's patterns); rules already in the files have the generators' own form, their names
are distinct over both files and without leading zeros, and every number of a drive link is used by a cdrom link at
or before it in its file (`Serial.Sound`). What is further asked of the temporary file is
said in each row.

## Model

| member | source | states |
|---|---|---|
| Text.ValueOfDec | rootfs/lib/udev/rule_generator.functions:80-86 | reading back the decimal numeral the shell prints for a number gives the number |
| Text.DecOfValue | rootfs/lib/udev/rule_generator.functions:80-83 | a numeral without leading zero is the one printed for its value, and `test` and `$((...))` then read it alike |
| Text.WordsOfJoin | rootfs/lib/udev/rule_generator.functions:77-96 | splitting what `echo $(...)` printed gives back the list of words, for every list of words without spaces |
| Allocator.RawFindNextAvailable | rootfs/lib/udev/rule_generator.functions:72-87 | the loop with its running maximum computes the specified suffix for every text, names that are no numbers included |
| Allocator.BaseRecovered | rootfs/lib/udev/rule_generator.functions:75 | from any non-empty list of names of one family the common base is recovered |
| Allocator.MaxIsMax | rootfs/lib/udev/rule_generator.functions:76-81 | the running maximum is the text of the largest number of the list, leading zeros or not, is in the list, and a bare name counts as 0 |
| Allocator.NextAvailableIsFresh | rootfs/lib/udev/rule_generator.functions:72-87 | for every list of names with any digits whose largest numeral both readings take alike: the result is empty exactly for the empty list, otherwise one more than the largest number in use, and base plus result is not in the list |
| Allocator.CanonicalReadsAlike | rootfs/lib/udev/rule_generator.functions:80-83 | without leading zeros the largest numeral is always read alike |
| Allocator.FreshExactly | rootfs/lib/udev/rule_generator.functions:72-87 | all lists whose largest numeral is written `m` get a fresh name if and only if `test` and `$((...))` take `m` for the same number |
| Allocator.LeadingZeroCollides | rootfs/lib/udev/rule_generator.functions:80-83 | for the list `eth9 eth010` the name allocated is in use: the two readings of a leading zero differ |
| Rules.ExtractRule | rootfs/lib/udev/rule_generator.functions:95-97 | scanning one rule captures its own name and nothing from the keys before or after it, and only if the expression matches the name |
| Rules.ExtractLine | rootfs/lib/udev/rule_generator.functions:95-97 | banner lines, comments and blank lines give nothing, a rule of either script gives its name |
| Rules.ScanReturnsNames | rootfs/lib/udev/rule_generator.functions:90-100 | write/scan round trip: over any file the generators wrote, the scan returns exactly the names of the requested family, in order |
| Rules.MatchingMembers | rootfs/lib/udev/rule_generator.functions:90-100 | a name is among the scanned ones if and only if it is in a rule and the expression matches it |
| Scripts.NetKeysAreClean | rootfs/lib/udev/write_net_rules:82-109 | no combination of match keys of a network rule hides a `NAME=` key |
| Scripts.CdKeysAreClean | rootfs/lib/udev/write_cd_rules:66-100 | no match of an optical-drive rule hides a `SYMLINK+=` key or is a comment |
| Turns.FamilyIsStem | rootfs/lib/udev/write_net_rules:121 | the expression `base[0-9]*` matches exactly the names with that base and a numeral or nothing after it |
| Turns.AllocatesNext | rootfs/lib/udev/rule_generator.functions:72-100 | scanned for a family and passed to the allocator, any names give the number after the largest of the family, 0 printed as nothing |
| Turns.NetNameByNames | rootfs/lib/udev/write_net_rules:111-124 | the name chosen is a function of the kernel's name and the names in use alone, not of match keys, comments or other lines |
| Turns.ChoiceIsFresh | rootfs/lib/udev/write_net_rules:118-124 | that function yields a new name, again one of the form the kernel gives, and not taken by the script's own test |
| Turns.NetNameIsFresh | rootfs/lib/udev/write_net_rules:118-124 | the name chosen, kept or allocated, is in no rule that was scanned |
| Turns.NetNameIs | rootfs/lib/udev/write_net_rules:111-124 | in plain terms: the kernel's name is kept as long as no scanned rule seems to use it, a dot standing for any character; otherwise the name is its stem and one more than the largest number in use behind that stem |
| Turns.NamesOfNetRule | rootfs/lib/udev/write_net_rules:49-68 | what is written, banner and comment or not, is well formed and contributes exactly the one name |
| Turns.NetPlanIsFresh | rootfs/lib/udev/write_net_rules:102-126 | a run under the lock gives up exactly when it has no match, and otherwise writes one rule with one fresh name |
| Turns.CdAllocates | rootfs/lib/udev/write_cd_rules:25-27 | asked for `cdrom[0-9]*` the allocator returns the number after the largest cdrom number in the rules |
| Turns.CdNumberIs | rootfs/lib/udev/write_cd_rules:98-104 | in plain terms: the number of a drive's links is one more than the largest cdrom number in use, and none is written if none is in use |
| Turns.NamesOfCdRule | rootfs/lib/udev/write_cd_rules:29-49 | one call of `write_rule` contributes exactly its link, with or without banner and comment |
| Turns.CdPlanLinks | rootfs/lib/udev/write_cd_rules:98-110 | a run writes well-formed rules for exactly its links of the next cdrom number, in order |
| Turns.LinksShape | rootfs/lib/udev/write_cd_rules:104-110 | the links of one run start with a cdrom link, are distinct, all have the same number, and at most one is in each family |
| Turns.NumbersBelowNext | rootfs/lib/udev/write_cd_rules:98-110 | cross-family invariant: every number in use in any of the four families lies below the one allocated from cdrom names alone |
| Turns.LinksAreFresh | rootfs/lib/udev/write_cd_rules:98-110 | the new links are new in all four families, and each number is still covered by a cdrom rule at or before it |
| Udev.PairsOfListed | rootfs/lib/udev/write_net_rules:49-68 | reading a list of conditions back from its text, by udev's syntax alone, gives the list, for all keys, operators and values that can be written |
| Conditions.NetRuleReads | rootfs/lib/udev/write_net_rules:82-106 | the text of a network rule, read back as pairs: subsystem, action, then address (with any driver), driver, dev_id, bus id and type, exactly those that are set, each with the request's own value, the kernel stem, and the name |
| Conditions.CdRuleReads | rootfs/lib/udev/write_cd_rules:66-96 | the text of a drive's rule, read back: a CD drive, then its path, its serial number, or its model and revision, by the method asked for, each with the drive's own value, and the link |
| Conditions.NetRuleApplies | rootfs/lib/udev/write_net_rules:49-106 | udev applies the rule to a device if and only if it is a network device being added whose kernel name begins with the stem and which has the address, dev_id and type asked for, one device of its chain having the driver (with an address, any driver) and the bus id asked for |
| Conditions.NetPlanApplies | rootfs/lib/udev/write_net_rules:49-126 | the same of every rule among the lines a run writes |
| Conditions.OwnCard | rootfs/lib/udev/write_net_rules:82-126 | the card that asked for a rule matches it |
| Conditions.CdRuleApplies | rootfs/lib/udev/write_cd_rules:66-100 | udev applies the rule to a device if and only if it is a CD drive with the path asked for (by-path, and by default), the serial number asked for (by-id), or the model and revision asked for (by-id without a serial number) |
| Conditions.CdPlanApplies | rootfs/lib/udev/write_cd_rules:66-110 | the same of every rule among the lines a run writes |
| Conditions.OwnDrive | rootfs/lib/udev/write_cd_rules:66-110 | the drive that asked for links matches all its own rules |
| Conditions.CdExitsExactly | rootfs/lib/udev/write_cd_rules:51-90 | the script gives up before the lock exactly without a device, for no CD reader, for an unknown method, or if what the method needs is not set |
| Conditions.LinksExactly | rootfs/lib/udev/write_cd_rules:104-110 | which of the four links a drive gets: cdrom always, and the others exactly by what it can do |
| Conditions.NetTextIs | rootfs/lib/udev/write_net_rules:49-68 | the text a run writes, line for line: the banner if it is due, an empty line, the comment if there is one, and the rule |
| Conditions.CdTextIs | rootfs/lib/udev/write_cd_rules:29-49 | the text a run writes, line for line: the banner if it is due, model and path as a comment, and one rule for each link of the next number |
| Conditions.CustomName | rootfs/lib/udev/write_net_rules:108-114 | a name requested from outside is written as it is, taken or not |
| Serial.TurnAddsFresh | rootfs/lib/udev/write_net_rules:75-128 | a run of either script adds well-formed lines whose names are distinct, new among those it scanned, and obtainable from them |
| Serial.TurnKeepsSound | rootfs/lib/udev/rule_generator.functions:59-69 | a run keeps all names over both files distinct, if a writeable run is given no name of the temporary file |
| Serial.LinesAreGiven | rootfs/lib/udev/write_net_rules:75-128 | the names a run writes are those given by the names it scanned |
| Serial.TurnGives | rootfs/lib/udev/rule_generator.functions:59-69 | one run adds what it is given to the file the answer points to and leaves the names of the other alone |
| Serial.ReplayIsSound | rootfs/lib/udev/rule_generator.functions:59-100 | any serial execution of any requests keeps all names distinct and covered, if the answers never revert and, once a run is let in, the names left in the temporary file are out of reach |
| Reversion.Overlap | rootfs/lib/udev/rule_generator.functions:57-87 | if a run that saw the temporary file and one that did not are given one name, then seeing it makes no difference to the latter |
| Reversion.StillNext | rootfs/lib/udev/rule_generator.functions:57-87 | a run that does not see the temporary file and would otherwise choose differently does not move on what a refused run is given |
| Reversion.MainIsGranted | rootfs/lib/udev/rule_generator.functions:57-69 | the real file depends on the runs let in alone, whatever is refused |
| Reversion.FirstRefusal | rootfs/lib/udev/rule_generator.functions:63-68 | after a refused run, as long as all runs fit in, the temporary file holds the very name that comes next after the real file and the starting temporary file, whatever that held |
| Reversion.FittingIsSound | rootfs/lib/udev/rule_generator.functions:57-69 | if every run that is let in fits in, all names stay distinct and covered |
| Reversion.ReversionCollides | rootfs/lib/udev/rule_generator.functions:57-69 | if some run that is let in does not fit in, a name is given out twice |
| Reversion.UniqueExactly | rootfs/lib/udev/rule_generator.functions:57-69 | serial runs that compete for the same names, from any sound files, leave all names distinct if and only if every run that is let in fits in |
| Reach.MainNumbers | rootfs/lib/udev/write_cd_rules:98-104 | the drives whose runs find the directory writeable are given consecutive cdrom numbers without a gap |
| Reach.CdUniqueExactly | rootfs/lib/udev/write_cd_rules:92-112 | for drives the condition in numbers: no link of the number a run gets is left in the temporary file, and once the number reaches the next one of the temporary file no run before was refused |
| Reach.NothingIsBehind | rootfs/lib/udev/rule_generator.functions:57-69 | a temporary file without rules is behind, for every request |
| Reach.BehindUniqueExactly | rootfs/lib/udev/rule_generator.functions:57-69 | from a temporary file that is behind, such as one without rules, names stay distinct if and only if the answers never revert |
| Reach.OutOfReachExactly | rootfs/lib/udev/rule_generator.functions:57-69 | with the directory writeable throughout, all sequences of requests keep names distinct if and only if every name left in the temporary file is out of reach |
| Reach.NoneBeyondExactly | rootfs/lib/udev/write_cd_rules:98-110 | for drives, from any distinct names in rules of the script's own form, covered or not, in a directory writeable throughout: all requests keep names distinct if and only if every link in either file has a number below the next one |
| Reach.LeftoverInput | rootfs/lib/udev/rule_generator.functions:64 | a temporary file with one rule beside no rules file has distinct names and one of them within reach |
| Reach.NetAnswersExactly | rootfs/lib/udev/write_net_rules:75-128 | for any sequence of answers, all lists of interfaces keep names distinct if and only if the answers never revert and, unless all are refusals, the names left in the temporary file are out of reach |
| Protocol.AppendOneByOne | rootfs/lib/udev/write_net_rules:54-67 | echoing the lines of a run one at a time adds up to appending them at once |
| Protocol.DecideKeepsInv | rootfs/lib/udev/write_cd_rules:95-110 | when a run scans and chooses under the lock, it is the next turn of the serial order, with the very lines that turn writes |
| Protocol.StepKeepsInv | rootfs/lib/udev/rule_generator.functions:36-69 | every step of every process, every stop, and every probe of the other script keeps the protocol's invariant |
| Protocol.RunKeepsInv | rootfs/lib/udev/rule_generator.functions:36-69 | the invariant holds after every schedule |
| Guarantees.MutualExclusion | rootfs/lib/udev/rule_generator.functions:36-55 | in every reachable state at most one process is between its mkdir and its rmdir, the lock exists exactly when there is one, and a process removes no lock but its own |
| Guarantees.Serializable | rootfs/lib/udev/rule_generator.functions:36-100 | in every reachable state the files are those of a serial execution of the runs that decided, short of lines the holder has still to write |
| Guarantees.ExitsAddNothing | rootfs/lib/udev/write_net_rules:70-106 | a process that exits for a missing variable, a missing match or a lock timeout contributes nothing, one that exits with 0 exactly one turn |
| Guarantees.StatusTells | rootfs/lib/udev/rule_generator.functions:36-50 | in every schedule: a script exits with 0, 1 or 2 only; with 1 only if it was given nothing to tell its device by, with 0 only if it was given something, and with 2 only after it had come as far as the lock |
| Guarantees.AppendOnly | rootfs/lib/udev/write_net_rules:54-67 | no schedule, with or without the lock, takes back or changes a line of either file |
| Guarantees.NamesStayUnique | rootfs/lib/udev/write_net_rules:75-128 | for every interleaving of any number of processes of any requests, some stopped anywhere, all names over both files are distinct and covered, if the answers have not reverted and, once a run was let in, the names left in the temporary file were out of reach |
| Guarantees.NamesUniqueExactly | rootfs/lib/udev/rule_generator.functions:57-69 | for either script, any sound starting files and every schedule: whenever the lock is free, all names are distinct if and only if every run that was let in fitted in |
| Guarantees.CdNamesUniqueExactly | rootfs/lib/udev/write_cd_rules:92-112 | for concurrent runs of any drives, from any sound starting files, the same equivalence in numbers |
| Guarantees.BehindNamesUniqueExactly | rootfs/lib/udev/rule_generator.functions:57-69 | from a temporary file that is behind: whenever the lock is free, names are distinct if and only if no run was let in after a refused one |
| Guarantees.AnswersAreConstant | rootfs/lib/udev/rule_generator.functions:26-33 | when one script runs alone, every probe of every process answers with the permission of the directory |
| Guarantees.AloneNamesStayUnique | rootfs/lib/udev/write_cd_rules:92-112 | one script alone, permission fixed, and if the directory is writeable the names left in the temporary file out of reach: names stay unique in every reachable state of every schedule |
| Stopped.StoppedHolder | rootfs/lib/udev/rule_generator.functions:41-49 | once the holder has stopped no file changes again, and each later process makes exactly 31 attempts and exits with 2 |
| Stopped.StoppingHolds | rootfs/lib/udev/rule_generator.functions:36-55 | a process that stops inside its critical section keeps the lock for ever |
| Stopped.PlanIsBannered | rootfs/lib/udev/write_cd_rules:29-49 | a run writes the whole banner first if it is due, never twice, and no banner line otherwise |
| Stopped.ReplayHasOneBanner | rootfs/lib/udev/rule_generator.functions:59-61 | serial runs never add a second banner to either file |
| Stopped.OneBannerEver | rootfs/lib/udev/rule_generator.functions:59-69 | starting without files, all runs of every schedule together write at most one banner, at the top of one file, before every rule |
| Schedules.WriteOut | rootfs/lib/udev/write_net_rules:54-67 | a process left alone has appended all its lines after as many steps as there are lines |
| Schedules.AloneTakesATurn | rootfs/lib/udev/write_cd_rules:92-116 | progress: with the lock free, a process left alone completes one turn, frees the lock and exits with 0 |
| Schedules.ProbeRace | rootfs/lib/udev/rule_generator.functions:26-33 | for either script, two competing runs and one probe of the other script suffice to give a name out twice in a writeable directory, from any sound files of which the temporary one is behind |
| Schedules.LeftoverRepeated | rootfs/lib/udev/rule_generator.functions:64 | for either script, if the first name to be given out is left in the temporary file, one run alone repeats it |
| Schedules.AloneUniqueExactly | rootfs/lib/udev/rule_generator.functions:57-69 | one script alone in a writeable directory: every schedule of any processes keeps names distinct if and only if the names left in the temporary file are out of reach |
| Schedules.NetSchedulesExactly | rootfs/lib/udev/write_net_rules:75-128 | for any sequence of answers: every schedule of any runs of write_net_rules, next to the other script, that get these answers keeps names distinct, if and only if the answers never revert and, unless all are refusals, the names left in the temporary file are out of reach |
| Schedules.BothDecidedCollide | rootfs/lib/udev/rule_generator.functions:90-100 | two competing runs of either script that both chose before either wrote give the same name |
| Schedules.NoLockRace | rootfs/lib/udev/rule_generator.functions:37 | without `/dev/.udev/` there is a schedule of any two competing runs, of either script, that repeats a name |
| Generator.Process.LockRulesFile | rootfs/lib/udev/rule_generator.functions:36-50 | takes the lock at the first of 31 attempts at which it is free and fails only if all find it held; without `/dev/.udev/` does nothing; the disk is then as others left it meanwhile |
| Generator.Process.UnlockRulesFile | rootfs/lib/udev/rule_generator.functions:52-55 | removes the lock exactly if this process had set `RULES_LOCK` |
| Generator.Process.Writeable | rootfs/lib/udev/rule_generator.functions:26-33 | true exactly if the directory takes the probe link and none is there; the probe leaves no trace |
| Generator.Process.ChooseRulesFile | rootfs/lib/udev/rule_generator.functions:59-69 | the file to write is the temporary one exactly if the probe fails; the banner is due exactly if neither file exists |
| Generator.Process.FindAllRules | rootfs/lib/udev/rule_generator.functions:90-100 | the names found in the real file, followed when the temporary file is written by those found in it |
| Generator.Process.WriteNetRule | rootfs/lib/udev/write_net_rules:49-68 | echo by echo it appends the specified lines to the chosen file only, and clears the banner flag |
| Generator.Process.WriteCdRule | rootfs/lib/udev/write_cd_rules:29-49 | the same for a link, which it also adds to the links to be printed |
| Generator.Process.BuildMatch | rootfs/lib/udev/write_net_rules:82-100 | the match built by repeated reassignment is the specified one |
| Generator.Process.ChooseName | rootfs/lib/udev/write_net_rules:108-124 | the name is the specified one, and the name announced is the one written; nothing is announced only if the kernel's name is kept |
| Generator.Process.NetMain | rootfs/lib/udev/write_net_rules:70-130 | the whole script: each exit status, exactly the lines planned on the disk as it was when the lock was had appended or none, the lock released, the announced name the one in the rule |
| Generator.Process.WriteCdLinks | rootfs/lib/udev/write_cd_rules:104-110 | the up to four rules of one drive, and the links collected are the names written |
| Generator.Process.CdMain | rootfs/lib/udev/write_cd_rules:51-116 | the whole script: each exit status, exactly the lines planned on the disk as it was when the lock was had appended or none, the lock released, the links printed the ones written, in order |
| Generator.OutcomeIsTurn | rootfs/lib/udev/write_net_rules:75-130 | a script that got the lock took exactly the turn the serial order is built from, and exits with 0 exactly if it wrote |
| Glob.FirstAt | rootfs/lib/udev/path_id:291-294 | the place where a longest-suffix expansion cuts: the first match, and none exactly if there is none |
| Glob.LastAt | rootfs/lib/udev/path_id:162-165 | the place where a shortest-suffix expansion cuts: the last match, and none exactly if there is none |
| Glob.InOrderExtends | rootfs/lib/udev/path_id:477-537 | a pattern that ends in a star and matches a directory matches everything below it |
| Lun.Shape | rootfs/lib/udev/path_id:267-276 | the text is `0x` and sixteen hexadecimal digits, the last eight zero |
| Lun.ZeroAgrees | rootfs/lib/udev/path_id:272-276 | the special case for zero prints what the general formula would |
| Lun.DecodeOfText | rootfs/lib/udev/path_id:267-276 | decoding the two printed halves recovers the low 32 bits of the LUN |
| Lun.SameTextExactly | rootfs/lib/udev/path_id:267-276 | two LUNs print alike if and only if they agree modulo 2^32 |
| PathId.PortOffsetIsMin | rootfs/lib/udev/path_id:59-69 | the offset is the minimum of the own port and all listed ports, for every listing, so no relative port is negative |
| PathId.CcissDisk | rootfs/lib/udev/path_id:78-87 | a disk is named if and only if some listed `block*` entry is a link whose name contains `cciss` |
| PathId.LeastPhyIsLeast | rootfs/lib/udev/path_id:297-305 | the phy settled on is at most the bound and every number found, and is the bound or one of them |
| PathId.AllPhysAre | rootfs/lib/udev/path_id:298-300 | the identifiers looked at are exactly those of the phys in the `sas_phy` directories of the port's phys |
| Climbing.RoundExact | rootfs/lib/udev/path_id:476-543 | each round ends the walk, strictly shortens the path, or leaves it as it is, the last exactly at a stuck node |
| Climbing.StuckStays | rootfs/lib/udev/path_id:230-240 | at a stuck node the next round finds the same node stuck again |
| Climbing.EndsExactly | rootfs/lib/udev/path_id:475-544 | the loop ends after some number of rounds if and only if it never comes to a firewire node without identifier or a SAS node without cut |
| Climbing.EndsWithoutTraps | rootfs/lib/udev/path_id:475-544 | the loop ends on every device that is no trap and has none above it |
| Climbing.EndsStatically | rootfs/lib/udev/path_id:475-544 | from the tree alone: the loop ends on the device and every directory above it, whatever the variables held before, if and only if none of these is a trap |
| Inputs.FirewireRunsForEver | rootfs/lib/udev/path_id:230-240 | on any firewire node without an identifier in the tree, with the variables unset, the loop never ends |
| Inputs.RunsForEver | rootfs/lib/udev/path_id:230-240 | a firewire path below `/sys/devices` on which the loop never ends |
| Climbing.ClimbIsRounds | rootfs/lib/udev/path_id:475-544 | the recursive climb is the state after finitely many rounds of the loop |
| Climbing.StaysOnThePath | rootfs/lib/udev/path_id:475-544 | after any number of rounds the walk stands on the device, on a directory above it cut at a component boundary, or at the end |
| Identity.AncestorsAreFree | rootfs/lib/udev/path_id:477-519 | above a device that no endpoint arm matches there is none that one does |
| Identity.BusRound | rootfs/lib/udev/path_id:71-228 | a bus arm moves on regardless of what has been collected, and puts before it a segment that does not depend on it or, exactly at a pci directory with a cciss link, starts anew |
| Identity.EndpointRound | rootfs/lib/udev/path_id:230-395 | an endpoint arm that succeeds starts the identifier anew, whatever was collected; one that fails leaves it |
| Identity.BusClimb | rootfs/lib/udev/path_id:475-544 | a climb through bus arms always ends; unless it fails, with the identifier it began with behind a text independent of it or, exactly if it passes a cciss disk, with an identifier independent of it |
| Identity.ScsiArm | rootfs/lib/udev/path_id:195-228 | on the path of a SCSI device the arm yields exactly port, channel, target and LUN, and goes on from the controller |
| Identity.SameOffset | rootfs/lib/udev/path_id:59-69 | all devices of a controller count from the same first port |
| Identity.SegmentInjective | rootfs/lib/udev/path_id:195-228 | two SCSI devices of one controller with the same segment are the same device |
| Identity.ScsiIdPath | rootfs/lib/udev/path_id:475-573 | the identifier of a SCSI device is its segment behind a text that depends on the controller and the listings above it alone, or, if the climb passes a cciss disk, depends on these altogether; then the suffix of a tape |
| Identity.SiblingsDiffer | rootfs/lib/udev/path_id:71-228 | through the whole script, two SCSI devices of one controller, tapes or not, print the same identifier only if they are one device or the climb from the controller comes to a pci directory with a cciss link; and in these cases they do, but for different suffixes of tapes |
| Identity.RenumberingStable | rootfs/lib/udev/path_id:195-228 | through the whole script, raising all host numbers of a controller by a constant changes no identifier below it, in any two trees that agree on the listings above the controller and on the cciss disks there and at the controller |
| Hardware.CountsFromFirst | rootfs/lib/udev/path_id:59-69 | if `m` is listed or the own number and no listed number is smaller, the relative port is `n - m` |
| Hardware.FirstExists | rootfs/lib/udev/path_id:59-69 | there always is such a first number |
| Hardware.PciArm | rootfs/lib/udev/path_id:526-528 | a path below a pci bus without a component of an earlier arm takes the pci arm, serio and platform components below the bus notwithstanding |
| Hardware.LastDisk | rootfs/lib/udev/path_id:78-87 | of several cciss links the last one listed names the disk, by what follows `cciss!` |
| Hardware.FromPci | rootfs/lib/udev/path_id:71-105 | the climb from a pci device, whole: `pci-` and the device's name in front of what was collected or of the cciss disk, and the end |
| Hardware.PciDevice | rootfs/lib/udev/path_id:71-105 | through the whole script, what a pci device prints: no component between bus and device is named |
| Hardware.ScsiTakes | rootfs/lib/udev/path_id:517-519 | a SCSI device on a path without a component of an earlier arm takes the scsi arm, before those of the usb and pci devices above it |
| Hardware.ScsiSpelled | rootfs/lib/udev/path_id:195-228 | the arm's segment is `scsi-`, host minus first listed host, channel, target, LUN, and it goes on from the controller |
| Hardware.SegmentIsText | rootfs/lib/udev/path_id:195-228 | the segment of `Identity.ScsiIdPath` for every controller, spelt out the same way |
| Hardware.ScsiDisk | rootfs/lib/udev/path_id:475-574 | through the whole script, a SCSI disk or tape of a pci controller prints `pci-slot-scsi-(n - m):channel:target:lun` and the suffix of a tape, the cciss disk taking the place of the segment |
| Hardware.UnknownDevice | rootfs/lib/udev/path_id:538-541 | a device no arm knows prints nothing |
| Hardware.ScsiAlone | rootfs/lib/udev/path_id:538-566 | under a controller no arm knows a SCSI device prints its segment alone, and a tape no suffix |
| Hardware.TapeSuffix | rootfs/lib/udev/path_id:545-566 | the suffix of a tape: what stands before `st`, then `st`, then the letter `l`, `m` or `a` its name ends in, or none |
| Usb.UsbArm | rootfs/lib/udev/path_id:523-528 | every device below a usb bus, on a pci bus or not, takes the usb arm and not that of pci, serio or platform |
| Usb.UsbSpelled | rootfs/lib/udev/path_id:397-430 | the arm puts `usb-`, bus minus first listed bus, `:` and the port in front of what was collected, and goes on from the controller |
| Usb.FromUsb | rootfs/lib/udev/path_id:397-430 | the climb from a usb device behind a pci one, whole: both segments, in this order, in front of what was collected |
| Usb.UsbDevice | rootfs/lib/udev/path_id:475-574 | through the whole script, what a usb device behind a pci one prints |
| Usb.UsbDisk | rootfs/lib/udev/path_id:475-574 | through the whole script, a disk behind usb prints `pci-slot-usb-(n - m):port-scsi-...`, hosts and buses each counted from the first |
| Usb.UsbTty | rootfs/lib/udev/path_id:520-525 | a serial line behind usb prints what its usb device prints: its arm comes before those of usb and pci and names nothing |
| Buses.IdeArm | rootfs/lib/udev/path_id:478-480 | a drive below an interface of one or two digits takes the ide arm, whatever else is on its path |
| Buses.IdeSpelled | rootfs/lib/udev/path_id:157-193 | the arm puts `ide-`, interface minus first listed interface, `:` and the channel in front of what was collected; a drive that is neither master nor slave keeps the channel from before |
| Buses.IdeDisk | rootfs/lib/udev/path_id:475-574 | through the whole script, what an IDE drive of a pci controller prints |
| Buses.SerioSpelled | rootfs/lib/udev/path_id:132-155 | below neither a pci nor a usb device, a serio port takes the serio arm and not platform's: `serio-`, its number and all that stands below it, in front of what was collected |
| Buses.FromPlatform | rootfs/lib/udev/path_id:107-130 | the climb from a platform device, whole: `platform-` and its name in front of what was collected, and the end |
| Buses.PlatformDevice | rootfs/lib/udev/path_id:107-130 | through the whole script, what a platform device prints |
| Buses.PlatformSerio | rootfs/lib/udev/path_id:107-155 | through the whole script, a serio port of a platform device prints `platform-name-serio-...` |
| Endpoints.FcArm | rootfs/lib/udev/path_id:504-506 | a unit behind a remote port takes the Fibre Channel arm, before those of its host and its pci device |
| Endpoints.FcSpelled | rootfs/lib/udev/path_id:248-282 | the arm's identifier is `fc-`, the name of the remote port, `:` and the LUN; without a name the climb ends with what was collected |
| Endpoints.FcDisk | rootfs/lib/udev/path_id:475-574 | through the whole script, what a unit behind a Fibre Channel adapter on pci prints |
| Endpoints.FirewireSpelled | rootfs/lib/udev/path_id:230-246 | a node below a firewire host takes the firewire arm; its identifier is `ieee1394-0x` and the node's own, and without one nothing moves |
| Endpoints.FirewireDisk | rootfs/lib/udev/path_id:475-574 | through the whole script, what a firewire node behind a pci device prints |
| Endpoints.ConnectionIsLast | rootfs/lib/udev/path_id:356-361 | the connection used is the last one listed with number 0, and none exactly if there is none |
| Endpoints.IscsiSpelled | rootfs/lib/udev/path_id:340-395 | a unit behind a session takes the iscsi arm, before that of its host; it succeeds exactly if session, connection, target name and address are all there, and then names address, port, target name and LUN |
| Endpoints.IscsiDisk | rootfs/lib/udev/path_id:475-574 | through the whole script, what a unit behind an iSCSI session prints, and when it prints nothing |
| Endpoints.CssSpelled | rootfs/lib/udev/path_id:481-503 | below the channel subsystem: `ccw-`, adapter, `zfcp-`, port and LUN if the device gives all three, else `ccw-` and the last component |
| Endpoints.Dasd | rootfs/lib/udev/path_id:481-503 | through the whole script, a DASD prints `ccw-` and its name |
| Sas.SasArm | rootfs/lib/udev/path_id:507-509 | a unit behind an end device takes the SAS arm, before those of its host and its pci device |
| Sas.PhyIsLeast | rootfs/lib/udev/path_id:297-311 | the phy printed is the least one of the port, and the arm finds none exactly if no phy is numbered below 255 |
| Sas.SasSpelled | rootfs/lib/udev/path_id:284-338 | the arm fails exactly if no phy of the port is numbered below 255 or the end device has no address; otherwise its identifier is `sas-phy`, the least phy, the number of phys, address and phy of the end device, and the LUN |
| Sas.SasDisk | rootfs/lib/udev/path_id:475-574 | through the whole script, what a unit behind a SAS adapter on pci prints |
| Inputs.OneNameForAll | rootfs/lib/udev/path_id:78-103 | on a concrete tree every SCSI device of a controller with a cciss link prints `pci-0000:00:02.0-cciss-c0d0` |
| Walker.GetPortOffset | rootfs/lib/udev/path_id:59-69 | the loop over the listing computes the minimum |
| Walker.ClimbOut | rootfs/lib/udev/path_id:88-97 | the inner loops that drop components while a pattern matches end just above its first occurrence, having last seen the component it begins |
| Walker.FindLeastPhy | rootfs/lib/udev/path_id:297-305 | the loop over phys computes the least identifier below 255: at most 255 and every number read, and 255 or one of them |
| Walker.FindConnection | rootfs/lib/udev/path_id:356-361 | the loop over connections keeps the last one numbered 0 |
| Walker.NameCcissDisk | rootfs/lib/udev/path_id:78-87 | the loop over the block links overwrites what was collected with the name of the last cciss disk, and leaves it without one |
| Walker.Walker.HandlePciNode | rootfs/lib/udev/path_id:71-105 | the loops and the assignments to `d` and `D` make the specified move, the cciss links included |
| Walker.Walker.HandlePlatformNode | rootfs/lib/udev/path_id:107-130 | the same for platform devices |
| Walker.Walker.HandleSerioNode | rootfs/lib/udev/path_id:132-155 | the same for serio devices |
| Walker.Walker.HandleIdeNode | rootfs/lib/udev/path_id:157-193 | the same for IDE, with the relative port and a channel kept from before if there is none |
| Walker.Walker.HandleScsiNode | rootfs/lib/udev/path_id:195-228 | the same for SCSI, with the relative port |
| Walker.Walker.HandleFirewireNode | rootfs/lib/udev/path_id:230-246 | the same for firewire, path unchanged without an identifier |
| Walker.Walker.HandleFcNode | rootfs/lib/udev/path_id:248-282 | the same for Fibre Channel, with the encoded LUN |
| Walker.Walker.HandleSasNode | rootfs/lib/udev/path_id:284-338 | the same for SAS, through its loop over phys |
| Walker.Walker.HandleIscsiNode | rootfs/lib/udev/path_id:340-395 | the same for iSCSI, with its five ways to fail |
| Walker.Walker.HandleCssNode | rootfs/lib/udev/path_id:481-503 | the same for the S/390 arm |
| Walker.Walker.HandleUsbNode | rootfs/lib/udev/path_id:397-430 | the same for USB, with the host component the loop saw last |
| Walker.Walker.Dispatch | rootfs/lib/udev/path_id:477-543 | one pass of the `case` is one round |
| Walker.Walker.HandleDevice | rootfs/lib/udev/path_id:475-544 | on every walk that ends, the loop computes the recursive climb |
| Walker.AppendTail | rootfs/lib/udev/path_id:545-566 | the suffix of a tape is put behind an identifier, and nothing behind none |
| Walker.PrintIdPath | rootfs/lib/udev/path_id:475-574 | the line printed is the specified identifier with the suffix of a tape, none when there is none |
| Backend.StepInOrder | update-to-debian/update_backend.sh:45-90 | every step of the script, the interface or dd keeps the milestones once each and in order |
| Backend.RunInv | update-to-debian/update_backend.sh:10-90 | the handshake's invariant holds after every interleaving |
| Backend.WriteLaunchedOnceInOrder | update-to-debian/update_backend.sh:40-82 | over every interleaving the write starts at most once, after `Start`, the unmount and the power-controller step, in this order, and before `WriteDone` |
| Backend.ChecksumOnce | update-to-debian/update_backend.sh:15-38 | the checksum pass runs at most once however many `Syscheck` lines arrive or stay in `LINE` |
| Backend.SyscheckAnswered | update-to-debian/update_backend.sh:10-43 | in every run the card is reported only while `Syscheck` is the last line read, every `Syscheck` read in the command loop is answered at once, and there has been a checksum pass exactly if there has been a report |
| Backend.ShutdownOnlyAfter | update-to-debian/update_backend.sh:82-90 | every shutdown follows `WriteDone` and a `PowerDown` read later than that |
| Backend.PollTellsTheEnd | update-to-debian/update_backend.sh:73-82 | when the poll fails, dd has ended if and only if it had begun, and then reports nothing any more |
| Backend.QuietExactly | update-to-debian/update_backend.sh:73-82 | at a poll about to find no dd: no continuation brings output of dd if and only if dd had begun |
| Backend.EarlyPoll | update-to-debian/update_backend.sh:69-82 | the other case is reachable: a run in which `WriteDone` comes before dd begins and reports |
| Updater.Update.Read | update-to-debian/update_backend.sh:12 | a line replaces `LINE`; a timeout clears it or leaves it |
| Updater.Update.CommandPass | update-to-debian/update_backend.sh:12-42 | one pass of the command loop, variable by variable, is one step of the machine |
| Updater.Update.CommandLoop | update-to-debian/update_backend.sh:10-43 | the loop is left exactly when a `Start` line arrives |
| Updater.Update.Launch | update-to-debian/update_backend.sh:45-69 | unmount, power controller and launch are three steps of the machine, the controller updated exactly below version 7 with the file there |
| Updater.Update.PollLoop | update-to-debian/update_backend.sh:73-81 | the loop is left at the first poll that finds no dd, and only then |
| Updater.Update.Announce | update-to-debian/update_backend.sh:82-84 | `WriteDone` is said once and the script goes on to wait, never straight to the shutdown |
| Updater.Update.AwaitLoop | update-to-debian/update_backend.sh:84-88 | the loop is left exactly when a `PowerDown` line arrives, wherever dd moves |
| Updater.Update.Perform | update-to-debian/update_backend.sh:10-90 | the whole script, dd moving between any of its steps after the launch, is a run of the machine, and shuts down exactly if `Start` arrives, then a poll misses dd, then `PowerDown` arrives |

## Left out

- Guarantees.NamesStayUnique: one direction only, for processes of any requests. The equivalences are `Guarantees.NamesUniqueExactly` for runs that compete for the same names and `Reach.NetAnswersExactly` for all requests under given answers.
- Guarantees.AloneNamesStayUnique: names requested through `INTERFACE_NAME` are excluded, since the script writes them without looking whether they are taken; `Scripts` and `Generator` do model them.
- Walker.Walker.HandleDevice: required to be called on walks that end. On the others the loop runs for ever, and `Climbing.EndsExactly` says which they are.
- Generator.Process.NetMain: one process by itself, like Generator.Process.CdMain. Others may change the files while it waits for the lock, but not, without `/dev/.udev/`, while it runs; those interleavings are in `Protocol`, whose turns these methods take (`Generator.OutcomeIsTurn`).
- Updater.Update.Perform: dd does not move between the unmount and the end of the launch, where there is none yet, nor between a poll and the decision it leads to.
- Identity.SiblingsDiffer: says nothing of two devices that both print nothing, nor of a controller that does not list their hosts.
- Climbing.EndsStatically: the values the variables held before are quantified over; for a start with all of them unset only the sufficient half is static (`Climbing.EndsWithoutTraps`), and `Climbing.EndsExactly` is the exact condition on the run.
- Conditions.NetRuleApplies: for values without quotes and pattern characters, like Conditions.CdRuleApplies; udev's patterns with `[` and `|` are not part of the model, nor are its other keys.
- Hardware.ScsiDisk: pci controllers, like the other whole-script identifiers of `Hardware`, `Usb`, `Buses`, `Endpoints` and `Sas`; for any other controller the arms and segments are spelt out (`Hardware.ScsiSpelled`, `Usb.UsbSpelled` and the like), and `Identity.ScsiIdPath` says what stands before them.
- `sed` and shell patterns: only the expressions the scripts use; of the metacharacters an interface name could contain only `.` acts as a wildcard.
- Environment values with embedded newlines, and names with blanks or quotes.
- The width of shell integers: numbers are unbounded.
- Atomicity below one system call or one `echo`: a line is appended whole, a file is created with its first line, and the file tests of `choose_rules_file` happen together with its `ln`.
- Writing to the temporary file where `/dev/.udev/` does not exist: the write would fail in the script.
- The unused counter of targets in `handle_scsi`, and the directory changes of the handlers, whose effect is only where listings are read.
- The start of `path_id` (`path_id:14-57` and `path_id:432-475`), which finds the device directory the climb begins with, the type and the name of the device.
- Ports and phys written with leading zeros in sysfs, and phy directories without an identifier file; arithmetic on a text that is not a number ends the walk as failed.
- The card report of `Syscheck` is one event, whatever it says, and the version found in the power controller is a parameter.
- The sleeps of all scripts, and their debug output.
- `sysread` and `sysreadlink` of rule_generator.functions, which neither script calls.
- The other scripts, headers, kernel modules and tables of the repository: straight-line device set-up, declarations or data.
