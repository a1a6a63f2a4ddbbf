# System monitor /proc reader, modelled in Dafny

This project models the parsing core of a terminal system monitor for
Linux. `LinuxParser` reads kernel pseudo-files (`/etc/os-release`,
`/proc/version`, `/proc/meminfo`, `/proc/uptime`, `/proc/stat`, and for each
process `/proc/[pid]/cmdline`, `/proc/[pid]/status` and `/proc/[pid]/stat`,
plus `/etc/passwd`) and turns their text into typed values.
`Processor::Utilization` turns two readings of the CPU counters into a
load ratio.

Every file is an input value: a `seq<string>` of its lines, with no lines
when it cannot be opened. The `/proc` listing is a sequence of
`DirEntry(name, isDirectory)`. Each accessor is a specification function
over that text. Where the source loops and updates variables, a `method`
with the same loops is proved equal to that function. Lemmas then state
what the function means: examples, which match wins, fallbacks, round
trips, ranges.

Modules:

- `Options`: the `Option` type. `None` stands for "the source has no
  defined result here": an exception from `std::stol`/`std::stoi`, a read
  of a never-assigned variable, or a float division by zero.
- `Text`: the standard-library behaviour the parser relies on:
  - whitespace tokenising by `>>` (`Tokens`, with `Unwords` as its inverse
    on words);
  - splitting on one delimiter by repeated `std::getline` (`Split`/`Join`);
  - `std::replace` (`Replace`);
  - `std::stol`/`std::stoi` (`LeadingInt`);
  - `>>` into an integer (`IsNumeral`/`NumeralValue`);
  - `std::to_string` (`IntToString`);
  - truncating integer division (`TruncDiv`).
- `LinuxParser`: the system-wide accessors.
- `PidParser`: the per-process accessors (the pid only selects the file,
  so it is not a parameter).
- `Processor`: the two-sample utilization.

Three behaviours of the code are easy to miss:

- `CpuUtilization` matches the token `cpu` at any position of any line,
  and the last match wins (`CpuLine`, `CpuLineAnywhere`).
- `OperatingSystem` without a `PRETTY_NAME` key returns the last value its
  pair loop read (`OperatingSystemFallback`).
- `Ram` divides by a `float` and converts back to `long`, which truncates
  toward zero (`TruncDiv`). For sizes that are not negative this equals
  floor.

## Model

| member | source | states |
|---|---|---|
| LinuxParser.OperatingSystem | CppND-System-Monitor-Project-Updated/src/linux_parser.cpp:14-34 | the line loop with the three character rewrites and the pair loop computes `OperatingSystemOf`: the first `PRETTY_NAME` value with '_' turned back into spaces, or else the last value read |
| LinuxParser.PairScanFirstMatch | CppND-System-Monitor-Project-Updated/src/linux_parser.cpp:25-30 | the pair loop returns the value of the first pair (even position) keyed `k` |
| LinuxParser.PairScanNoMatch | CppND-System-Monitor-Project-Updated/src/linux_parser.cpp:25-33 | without a matching pair, the value variable ends as the second token of the last complete pair, or unchanged when the line has fewer than two tokens |
| LinuxParser.PrettyNameScanAppend | CppND-System-Monitor-Project-Updated/src/linux_parser.cpp:20-31 | over two blocks of lines, a match in the first block wins; otherwise the second block continues from the value the first left |
| LinuxParser.OsReleaseLineTokens | CppND-System-Monitor-Project-Updated/src/linux_parser.cpp:21-24 | the rewrite turns `KEY="v w"` into the two tokens `KEY` and `v_w` |
| LinuxParser.OperatingSystemReadsPrettyName | CppND-System-Monitor-Project-Updated/src/linux_parser.cpp:20-29 | a `PRETTY_NAME="..."` line after lines without that key gives back its value, spaces included, whatever follows |
| LinuxParser.OperatingSystemExample | CppND-System-Monitor-Project-Updated/src/linux_parser.cpp:20-29 | after a `NAME="Ubuntu Linux"` line, `PRETTY_NAME="Foo Bar"` gives "Foo Bar" |
| LinuxParser.OperatingSystemFallback | CppND-System-Monitor-Project-Updated/src/linux_parser.cpp:33 | a file whose one `KEY="v"` line has another key gives `v` with its spaces still as '_': the last value read is returned |
| LinuxParser.PrettyNameHasNoSeparators | CppND-System-Monitor-Project-Updated/src/linux_parser.cpp:21-28 | a found name contains no '_', '=' or '"' |
| LinuxParser.Kernel | CppND-System-Monitor-Project-Updated/src/linux_parser.cpp:37-47 | the result is empty or a single word |
| LinuxParser.KernelIsThirdWord | CppND-System-Monitor-Project-Updated/src/linux_parser.cpp:42-46 | the kernel is the third word of the first line, or "" when it has fewer than three |
| LinuxParser.Pids | CppND-System-Monitor-Project-Updated/src/linux_parser.cpp:50-67 | the listing loop, reading each name with std::stoi, computes `PidsOf` |
| LinuxParser.PidsOfAppend | CppND-System-Monitor-Project-Updated/src/linux_parser.cpp:54-64 | ids keep the listing order |
| LinuxParser.PidsOfEntry | CppND-System-Monitor-Project-Updated/src/linux_parser.cpp:56-62 | one entry contributes its number exactly when it is a directory whose name is all digits |
| LinuxParser.PidsOfMembers | CppND-System-Monitor-Project-Updated/src/linux_parser.cpp:54-64 | `p` is returned if and only if some directory with an all-digit name has value `p` |
| LinuxParser.PidsExample | CppND-System-Monitor-Project-Updated/src/linux_parser.cpp:56-61 | of directories `123`, `abc`, `45x` and a file `456`, only 123 is returned |
| LinuxParser.MemoryUtilization | CppND-System-Monitor-Project-Updated/src/linux_parser.cpp:70-89 | the two nested loops with their overwriting assignments compute `MemoryUtilizationOf` |
| LinuxParser.MemInfoLastLineWins | CppND-System-Monitor-Project-Updated/src/linux_parser.cpp:78-83 | a later `MemTotal:` or `MemFree:` line overwrites that variable and leaves the other |
| LinuxParser.MemoryUtilizationOfTotals | CppND-System-Monitor-Project-Updated/src/linux_parser.cpp:76-88 | `MemTotal: T` and `MemFree: F` give (T - F) / T |
| LinuxParser.MemoryUtilizationExample | CppND-System-Monitor-Project-Updated/src/linux_parser.cpp:88 | 1000 kB total and 400 kB free give 0.6 |
| LinuxParser.MemoryUtilizationInRange | CppND-System-Monitor-Project-Updated/src/linux_parser.cpp:88 | with 0 <= MemFree <= MemTotal and MemTotal > 0, the result is defined and in [0, 1] |
| LinuxParser.UpTime | CppND-System-Monitor-Project-Updated/src/linux_parser.cpp:92-105 | without a word on the first line std::stol("") throws and the result is undefined; otherwise it is std::stol of the first word |
| LinuxParser.UpTimeWholeSeconds | CppND-System-Monitor-Project-Updated/src/linux_parser.cpp:92-105 | `secs.frac ...` reads as `secs`: std::stol keeps the integer part of the first word |
| LinuxParser.CpuLine | CppND-System-Monitor-Project-Updated/src/linux_parser.cpp:155-167 | the counter vector always has exactly ten entries |
| LinuxParser.CpuScan | CppND-System-Monitor-Project-Updated/src/linux_parser.cpp:147-172 | the result always has exactly ten entries |
| LinuxParser.CpuUtilization | CppND-System-Monitor-Project-Updated/src/linux_parser.cpp:147-172 | the line and key loops, writing the ten-slot buffer by index, compute `CpuScan` |
| LinuxParser.ReadCpuLine | CppND-System-Monitor-Project-Updated/src/linux_parser.cpp:155-167 | the key loop over one line, writing the counters after each `cpu` key into the buffer slot by slot, leaves the buffer as `CpuLine` of its old contents |
| LinuxParser.CpuLineWithoutCpu | CppND-System-Monitor-Project-Updated/src/linux_parser.cpp:155-156 | a line with no `cpu` token leaves every counter as it was |
| LinuxParser.CpuLineAnywhere | CppND-System-Monitor-Project-Updated/src/linux_parser.cpp:155-166 | `cpu` is matched at any position; a read of fewer than ten tokens fills the leading counters and keeps the rest |
| LinuxParser.CpuUtilizationOfStat | CppND-System-Monitor-Project-Updated/src/linux_parser.cpp:147-172 | a `cpu c0 ... c9` first line, with no other `cpu` token, yields exactly those ten counters in order |
| LinuxParser.TotalSum | CppND-System-Monitor-Project-Updated/src/linux_parser.cpp:110-143 | the active sum plus the idle sum is defined exactly when counters user..steal all parse, and is then the sum of those eight |
| LinuxParser.ActiveJiffies | CppND-System-Monitor-Project-Updated/src/linux_parser.cpp:133-138 | defined exactly when std::stol reads each of the user, nice, system, irq, softirq and steal counters of the scanned `cpu` line, and then the sum of those six values |
| LinuxParser.IdleJiffies | CppND-System-Monitor-Project-Updated/src/linux_parser.cpp:141-144 | defined exactly when std::stol reads the idle and iowait counters of the scanned `cpu` line, and then their sum |
| LinuxParser.Jiffies | CppND-System-Monitor-Project-Updated/src/linux_parser.cpp:110-112 | defined exactly when ActiveJiffies and IdleJiffies are, and then their sum |
| LinuxParser.CountersReadBack | CppND-System-Monitor-Project-Updated/src/linux_parser.cpp:133-143 | every counter written in decimal reads back with std::stol as its value |
| LinuxParser.JiffiesOfCounters | CppND-System-Monitor-Project-Updated/src/linux_parser.cpp:110-143 | Active = user+nice+system+irq+softirq+steal, Idle = idle+iowait, Jiffies = the sum of the first eight counters |
| LinuxParser.JiffiesExample | CppND-System-Monitor-Project-Updated/src/linux_parser.cpp:110-143 | `cpu 10 20 ... 100` gives 270 active, 90 idle and 360 in all |
| LinuxParser.StatValue | CppND-System-Monitor-Project-Updated/src/linux_parser.cpp:179-190 | the line loop and the word-then-number pair loop compute `StatValueOf` |
| LinuxParser.TotalProcesses | CppND-System-Monitor-Project-Updated/src/linux_parser.cpp:175-191 | the value paired with the first `processes` key |
| LinuxParser.RunningProcesses | CppND-System-Monitor-Project-Updated/src/linux_parser.cpp:194-210 | the value paired with the first `procs_running` key |
| LinuxParser.IntPairScanFirstMatch | CppND-System-Monitor-Project-Updated/src/linux_parser.cpp:183-186 | the first even-position `k` whose earlier pairs were all numeric decides the line |
| LinuxParser.IntPairScanSound | CppND-System-Monitor-Project-Updated/src/linux_parser.cpp:183-186 | a value found is the number right after a `k` at an even position |
| LinuxParser.StatValueOfAppend | CppND-System-Monitor-Project-Updated/src/linux_parser.cpp:181-188 | over two blocks of lines, the first block's value wins |
| LinuxParser.StatValueOfLine | CppND-System-Monitor-Project-Updated/src/linux_parser.cpp:181-186 | a `key value` line after lines without the key gives that value |
| PidParser.Command | CppND-System-Monitor-Project-Updated/src/linux_parser.cpp:214-222 | the first line of the file, or "" when there is none |
| PidParser.Ram | CppND-System-Monitor-Project-Updated/src/linux_parser.cpp:226-243 | the line loop and the triple loop compute `RamOf` |
| PidParser.VmSizeOfAppend | CppND-System-Monitor-Project-Updated/src/linux_parser.cpp:232-240 | over two blocks of lines, the first `VmSize:` wins |
| PidParser.RamOfVmSize | CppND-System-Monitor-Project-Updated/src/linux_parser.cpp:234-237 | `VmSize: kb unit` gives the decimal string of kb / 1000 |
| PidParser.RamExample | CppND-System-Monitor-Project-Updated/src/linux_parser.cpp:234-237 | `VmSize: 5000 kB` gives "5" |
| PidParser.RamWithoutUnit | CppND-System-Monitor-Project-Updated/src/linux_parser.cpp:234-242 | a `VmSize:` line with no unit is never matched, so the result is "0" |
| PidParser.RamReadsBack | CppND-System-Monitor-Project-Updated/src/linux_parser.cpp:236-237 | the returned string reads back as the size divided by 1000, truncated |
| PidParser.Uid | CppND-System-Monitor-Project-Updated/src/linux_parser.cpp:247-262 | the line loop and the pair loop compute `UidOf` |
| PidParser.UidScanAppend | CppND-System-Monitor-Project-Updated/src/linux_parser.cpp:252-259 | over two blocks of lines, the first `Uid:` wins; otherwise the value carries over |
| PidParser.UidOfStatusLine | CppND-System-Monitor-Project-Updated/src/linux_parser.cpp:254-256 | `Uid: r e s f` after lines without the key gives the real id `r` |
| PidParser.UidWithoutKey | CppND-System-Monitor-Project-Updated/src/linux_parser.cpp:261 | a single `key value` line with another key gives `value`: the last value read is returned |
| PidParser.User | CppND-System-Monitor-Project-Updated/src/linux_parser.cpp:266-283 | the passwd loops, with ':' and 'x' blanked and the status file's uid, compute `UserOf` |
| PidParser.UserLinesAppend | CppND-System-Monitor-Project-Updated/src/linux_parser.cpp:271-280 | over two blocks of passwd lines, the first match wins |
| PidParser.PasswdLineTokens | CppND-System-Monitor-Project-Updated/src/linux_parser.cpp:272-275 | `name:x:uid:...` tokenises to `name`, `uid`, ... |
| PidParser.UserOfPasswdLine | CppND-System-Monitor-Project-Updated/src/linux_parser.cpp:271-277 | `name:x:uid:...` after non-matching lines gives `name` for `uid` |
| PidParser.UserExample | CppND-System-Monitor-Project-Updated/src/linux_parser.cpp:271-277 | `root:x:0:0:root:/root:/bin/bash` gives "root" for uid "0" |
| PidParser.UserNameLosesX | CppND-System-Monitor-Project-Updated/src/linux_parser.cpp:273 | a name `stem` + 'x' comes back as `stem`, because every 'x' on the line is blanked |
| PidParser.UserFoundHasNoSeparators | CppND-System-Monitor-Project-Updated/src/linux_parser.cpp:272-277 | a found name contains no ':' and no 'x' |
| PidParser.GetlineFields | CppND-System-Monitor-Project-Updated/src/linux_parser.cpp:124-127 | the good-stream getline loop collects exactly the single-space fields, empty ones included |
| PidParser.ActiveJiffies | CppND-System-Monitor-Project-Updated/src/linux_parser.cpp:116-130 | with at least 17 fields, the result is the std::stoi sum of fields 13..16 (`ActiveJiffiesOf`) |
| PidParser.ActiveJiffiesOfFields | CppND-System-Monitor-Project-Updated/src/linux_parser.cpp:124-129 | a stat line whose fields 13..16 are decimal counters gives their sum |
| PidParser.DoubledSpaceShiftsFields | CppND-System-Monitor-Project-Updated/src/linux_parser.cpp:124-126 | a doubled space adds an empty field for the getline split but not for whitespace tokens |
| PidParser.UpTime | CppND-System-Monitor-Project-Updated/src/linux_parser.cpp:287-303 | the token-collecting loops compute `UpTimeOf`: system uptime minus field 21 divided by the clock rate, truncated |
| PidParser.FileTokensOfLine | CppND-System-Monitor-Project-Updated/src/linux_parser.cpp:294-298 | the collected tokens of a line of words are those words |
| PidParser.UpTimeOfStart | CppND-System-Monitor-Project-Updated/src/linux_parser.cpp:301 | start time `start` and uptime `secs.frac` give secs - start / clockTicks |
| Processor.Utilization | CppND-System-Monitor-Project-Updated/src/processor.cpp:35-38 | defined if and only if the total changed between the two samples |
| Processor.UtilizationScales | CppND-System-Monitor-Project-Updated/src/processor.cpp:35-38 | the result times totald is totald - idled |
| Processor.SampleOf | CppND-System-Monitor-Project-Updated/src/processor.cpp:24-32 | one reading is defined exactly when ActiveJiffies and IdleJiffies are; with sums `a` and `i` it is the sample (a + i, i) |
| Processor.UtilizationOf | CppND-System-Monitor-Project-Updated/src/processor.cpp:22-38 | defined exactly when both readings are defined and Jiffies changed between them |
| Processor.UtilizationOfActive | CppND-System-Monitor-Project-Updated/src/processor.cpp:7-38 | readings with active and idle sums a0, i0 and then a1, i1 give (a1 - a0) / ((a1 + i1) - (a0 + i0)): totald - idled is the change in ActiveJiffies |
| Processor.SampleOfSums | CppND-System-Monitor-Project-Updated/src/processor.cpp:24-32 | a /proc/stat reading with active sum `a` and idle sum `i` samples Jiffies() = a + i and IdleJiffies() = i |
| Processor.UtilizationIsActiveShare | CppND-System-Monitor-Project-Updated/src/processor.cpp:7-38 | between samples with active and idle sums a0, i0 and then a1, i1, the result is (a1 - a0) / ((a1 + i1) - (a0 + i0)): the change in active jiffies over the change in all jiffies |
| Processor.UtilizationInRange | CppND-System-Monitor-Project-Updated/src/processor.cpp:35-38 | when neither idle nor active counters decrease, the result is in [0, 1] |
| Processor.UtilizationExample | CppND-System-Monitor-Project-Updated/src/processor.cpp:35-38 | total +100 and idle +40 give 0.6 |
| Processor.UtilizationWithoutIdle | CppND-System-Monitor-Project-Updated/src/processor.cpp:35-38 | an idle delta of 0 gives 1 |
| Processor.UtilizationAllIdle | CppND-System-Monitor-Project-Updated/src/processor.cpp:35-38 | an idle delta equal to the total delta gives 0 |
| Processor.UtilizationShift | CppND-System-Monitor-Project-Updated/src/processor.cpp:35-36 | adding the same amounts to both samples' total and idle changes nothing |
| Text.TokensOfUnwords | CppND-System-Monitor-Project-Updated/src/linux_parser.cpp:24-25 | whitespace extraction of words joined by spaces gives the words back |
| Text.TokensAroundSpace | CppND-System-Monitor-Project-Updated/src/linux_parser.cpp:24-25 | a whitespace character separates the tokens on its two sides |
| Text.SplitJoin | CppND-System-Monitor-Project-Updated/src/linux_parser.cpp:124-126 | splitting space-free fields joined by single spaces gives the fields back |
| Text.JoinSplit | CppND-System-Monitor-Project-Updated/src/linux_parser.cpp:124-126 | the fields of a single-space split join back to the line |
| Text.ReplaceRemoves | CppND-System-Monitor-Project-Updated/src/linux_parser.cpp:21-23 | after a replacement the replaced character no longer occurs |
| Text.LeadingIntOfString | CppND-System-Monitor-Project-Updated/src/linux_parser.cpp:101 | std::stol reads back any decimal integer, whatever non-digit text follows |
| Text.NumeralOfString | CppND-System-Monitor-Project-Updated/src/linux_parser.cpp:78 | extracting an integer from its decimal text gives the integer |
| Text.DigitsValueOfDecimal | CppND-System-Monitor-Project-Updated/src/linux_parser.cpp:237 | the value of the decimal string of `n` is `n` |
| Text.TruncDiv | CppND-System-Monitor-Project-Updated/src/linux_parser.cpp:236 | the quotient rounds toward zero: the remainder has the sign of the dividend and is smaller than the divisor |

## Left out

- File and directory access is not modelled: opening files, `opendir`/`readdir`, and the path constants of `linux_parser.h`. `linux_parser.h` is not part of this model. Contents come in as lines and entries. An unopenable file and an empty one are both "no lines".
- Processor.SampleOf: one sample reads /proc/stat several times in the source. Jiffies calls ActiveJiffies and IdleJiffies, each of which calls CpuUtilization, and Processor::Utilization then calls IdleJiffies once more. The model takes all reads of one sample from a single reading. Processor.UtilizationOfActive and Processor.SampleOfSums depend on this: with counters that move between the reads, the idle terms of `pretotal` and `preidle` need not cancel.
- The half-second `usleep` between the two samples of `Processor::Utilization` is not modelled. The two samples are parameters.
- `sysconf(_SC_CLK_TCK)` is a foreign call. The clock rate is the parameter `clockTicks`.
- Floating point is not modelled. MemoryUtilization and Utilization give the exact `real` ratio.
- PidParser.RamOf: divides with integers. It diverges from the source's `float` result for sizes above about 2^24 kB, where `float` no longer holds every integer.
- Machine integer width is not modelled: `int`/`long` overflow in sums and in `>>` or `std::stoi` reads.
- A `>>` into an integer that reads a numeric prefix of a token (such as `12abc`) is not modelled. The model ends the pair loop on any token that is not wholly a numeral.
- Values read from never-assigned variables become `None`: MemoryUtilization's `memtotal`/`memfree`, TotalProcesses' `processes`, RunningProcesses' `running_processes`. The model does not guess what the source returns there.
- LinuxParser.StatValueOf: not found is `None`. The source then returns whatever the variable holds (possibly a value left by an earlier pair).
- Exceptions from `std::stol`/`std::stoi` are `None`. Out-of-range vector indexing is a precondition: at least 17 fields for ActiveJiffies(pid), at least 22 tokens for UpTime(pid). So is `std::stoi` on an empty directory name in Pids.
- PidParser.User: reads the uid once from the status file. The source reads it again for every pair, from the same file.
- The `CPUStates` index constants come from `linux_parser.h`. They are taken as user..guest_nice = 0..9, the order in which the `cpu` line is read.
