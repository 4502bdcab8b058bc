# Verified models of the NAS support code

Five parts of the repository that work on state, bytes or arithmetic, each modelled in Dafny and proved about:

- **The IT87 hardware-monitor driver.** `It87Window` is the chip behind its two ports and the banked register window
  over it. `It87Registers` holds the register tables, `It87Convert` the conversions. `It87Spec` gives the driver as a
  value: the cached fields with the registers, and what every attribute does to them; `It87Driver` is the driver as a
  class that does the same field by field and register by register. `It87Coherence` and `It87Runs` prove that no run
  makes the cache stale, `It87Pwm` is about modes and duties, `It87Tuning` about divisors and frequencies;
  `It87Effects` says in numbers which registers an attribute changes and what duties and modes leave in them, `It87Stored`
  the same for limits, trip points, maps and sensor types, and for what a refresh reads.
- **The LS500 firmware table and flash layout.** `FwTable` prints the table, `FwReader` says what reading it back must
  give, `FwScan` has the script's own loops and the two checksums, `FlashLayout` the placement, erasing and writing of
  the images, and `FwInstall` puts the two together: the table just installed is the one that is found.
- **The shared-library closure of the initial ramdisk**, in `LibraryClosure`.
- **The Micon serial protocol.** `MiconFrames` has frames and sums, `MiconCommands` the commands and their retries over
  any line at all, `MiconRetries` how often they are sent, `MiconLine` the serial line, `MiconLeds` the LED registers, `MiconDriver`
  the objects of the source.
- **The Denverton GPIO driver.** `GpioMap` has the address and bit tables, `GpioSpec` the register changes and a pad
  seen alone, `GpioRuns` runs of calls, suspend and resume, `GpioBits` all of it bit by bit, `GpioDriver` the driver
  as a class.

`Arithmetic` and `Bytes` hold the few facts about quotients and byte sums that several of them use. Check everything
with `dafny verify dfyconfig.toml`.

## How the models stand to the code

- A class follows the source's own object: its fields, its methods, its loops. Each of its methods is proved equal to a
  function of the old state, and the theorems are about those functions.
- Integers are unbounded except where the source's width matters: 64-bit wrapping in the fan, voltage and temperature
  conversions, 32-bit truncation of the divisor argument, the shell's signed 64-bit numbers and the 32- and 64-bit fields
  of the table are written out. A `long` argument is any 64-bit value.
- The hardware is what the statements need and no more: chip registers change only when the driver writes them; the
  serial device is arbitrary except in the LED and stream theorems, which say what they ask of it; a GPIO status register
  clears the bits written as one; an erase count of zero erases to the end of the device, as mtd-utils does; a
  flash cell that is programmed without having been erased is spoiled.
- Library names in the closure are plain names: the model does not treat them as patterns. Sorting and dropping
  duplicates is any function that keeps the names.

## What the code does that its comments or the obvious claim do not say

- `It87Window.FlatExactlyWithinReach`: the window is a flat memory only up to 0x800 addresses with bank select (bank
  numbers above seven wrap around) and 0x100 without.
- `It87Convert.FanRoundTripExactly`: fan limits survive the trip through rpm for all counts only for divisors up to 8.
- `It87Convert.Fan16RoundTripExactly`: the 16-bit counts survive up to 611, and 612 does not.
- `It87Convert.Fan16AntitoneExactly`, `It87Convert.InMonotoneExactly` and `It87Convert.TempNearestExactly`: near the ends
  of the 64-bit range the fan, voltage and temperature conversions overflow, and the opposite end is stored.
- `It87Convert.DividableExactly`: one fan limit, the smallest long, makes the driver divide by zero.
- `It87Pwm.RefreshedModeReadsBack`: manual mode is shown as full speed whenever the duty register is full, also when on a
  newer chip it was the first trip duty that was set to full.
- `It87Stored.FanStored` and `It87Stored.Fan16Stored`: a negative fan limit is stored as the slowest one with 8-bit counts
  and as the fastest one with 16-bit counts.
- `It87Tuning.ShownMapAccepted`: for the later three channels the temperature map that is shown is refused when written
  back, because the driver shows a power of two from eight on but subtracts three from the value it is given.
- `LibraryClosure.StopsExactlyWhenAllFound`: the search command succeeds also when it finds nothing, so a single missing
  library makes the import loop run for ever.
- `FwScan.SumsAgree` and `FwScan.TableVerifies`: the checksum that is recalculated leaves out the last byte, so it agrees
  only with tables that end in a zero.
- `FlashLayout.AudioSafeExactly`: an empty image in front of the audio firmware would erase it.
- `GpioRuns.RestoredExactly` and `GpioRuns.LockedPadIsLost`: a pad that is locked at suspend and unlocked at resume is
  overwritten with an old context, all zeros if there was no earlier suspend.

## Model

| member | source | states |
|---|---|---|
| It87Window.Chip.OutData | custom/it87ts-1.0/it87ts.c:853-863 | a data write reaches the cell the bank register selects, the bank register itself from every bank |
| It87Window.SetBankSelects | custom/it87ts-1.0/it87ts.c:865-880 | from an unknown or right cached bank: afterwards the cache is right, the bank register's low five bits are untouched, and the selected page is the asked one (bank modulo eight) |
| It87Window.AccessHitsCell | custom/it87ts-1.0/it87ts.c:882-897 | one read or write through the window is one read or write of the cell behind the 16-bit address, from every honest cache |
| It87Window.WindowIsFlatMemory | custom/it87ts-1.0/it87ts.c:853-897 | over every run of reads and writes each read returns the last value written to that address; the cached bank stays unknown or right; the low five bits of the bank register never change |
| It87Window.FlatExactlyWithinReach | custom/it87ts-1.0/it87ts.c:865-897 | the window behaves as a flat memory for addresses below a limit if and only if the limit is at most 0x800 with bank select, 0x100 without |
| It87Driver.It87.constructor | custom/it87ts-1.0/it87ts.c:3341-3534 | a new device knows no bank, no cached value is valid, every manual duty and last automatic duty is full speed, and the temperature maps are one to one |
| It87Driver.It87.SetBank | custom/it87ts-1.0/it87ts.c:865-880 | the driver's own bank switch is the one the window theorems are about |
| It87Driver.It87.ReadValue | custom/it87ts-1.0/it87ts.c:882-891 | value and new window state are those of the window's read |
| It87Driver.It87.WriteValue | custom/it87ts-1.0/it87ts.c:893-897 | the new window state is that of the window's write |
| It87Driver.It87.Put | custom/it87ts-1.0/it87ts.c:893-897 | writing a setting changes exactly the register its table names |
| It87Registers.SettingsApart | custom/it87ts-1.0/it87ts.c:270-345 | in every layout two different settings never share a register address |
| It87Registers.LayoutsAreSound | custom/it87ts-1.0/it87ts.c:270-345 | all layouts: every address is in the first 256, none is the bank register, no two settings collide |
| It87Registers.MeasuredTable | custom/it87ts-1.0/it87ts.c:290-335 | the measuring registers and the beep register are the tabled ones in every layout |
| It87Registers.ManualDutyTable | custom/it87ts-1.0/it87ts.c:312 | the manual duty registers are the tabled ones in every layout |
| It87Convert.InRoundTrip | custom/it87ts-1.0/it87ts.c:769-778 | writing back a shown voltage leaves the limit register as it was, for every register value and ADC step |
| It87Convert.InNearest | custom/it87ts-1.0/it87ts.c:769-773 | the voltage limit stored is the nearest of the 256 steps, for every voltage that does not overflow |
| It87Convert.InMonotoneExactly | custom/it87ts-1.0/it87ts.c:769-773 | a higher limit never gets a smaller register on 0..limit if and only if ten times the limit plus half a step is below 2^63 |
| It87Convert.FanRoundTrip | custom/it87ts-1.0/it87ts.c:780-796 | count to rpm to count is the identity for 1..254 whenever (2v+1)*v*div is at most 1350000 |
| It87Convert.FanRoundTripExactly | custom/it87ts-1.0/it87ts.c:780-796 | all counts 1..254 survive if and only if the divisor is at most 8 |
| It87Convert.FanToRegAntitone | custom/it87ts-1.0/it87ts.c:780-786 | for positive rpm a faster limit never gets a larger count |
| It87Convert.FanToRegNearest | custom/it87ts-1.0/it87ts.c:780-786 | the count stored is the nearest to 1350000 over rpm times divisor among 1..254 |
| It87Convert.Fan16RoundTrip | custom/it87ts-1.0/it87ts.c:788-799 | the round trip in 16-bit mode under the same bound with divisor 2 |
| It87Convert.Fan16SteadyExactly | custom/it87ts-1.0/it87ts.c:788-799 | a 16-bit count survives the round trip if and only if the remainder of 1350000 by twice the count is less than the quotient |
| It87Convert.Fan16Nearest | custom/it87ts-1.0/it87ts.c:788-793 | the 16-bit count stored is the nearest to 1350000 over twice the rpm among 1..65534 |
| It87Convert.FanLimitsOff | custom/it87ts-1.0/it87ts.c:780-799 | off is the largest count and comes back as off; negative limits and a count of zero in both widths |
| It87Convert.Fan16RoundTripExactly | custom/it87ts-1.0/it87ts.c:788-799 | all 16-bit counts 1..limit survive if and only if the limit is at most 611 |
| It87Convert.DividableExactly | custom/it87ts-1.0/it87ts.c:788-793 | the doubled rpm is zero in 64 bits for no rpm but zero and the smallest long |
| It87Convert.Fan16AntitoneExactly | custom/it87ts-1.0/it87ts.c:788-793 | 16-bit counts are antitone on 1..limit if and only if the numerator 1350000 + rpm cannot overflow up to the limit |
| It87Convert.TempRoundTrip | custom/it87ts-1.0/it87ts.c:801-803 | writing back a shown temperature leaves the register as it was, for every register value |
| It87Convert.TempNearestExactly | custom/it87ts-1.0/it87ts.c:801-803 | the temperature stored is the nearest whole degree the register holds if and only if the value is at least 500 away from both ends of a long |
| It87Convert.ComputeDivToReg | custom/it87ts-1.0/it87ts.c:821-828 | the loop finds the largest power of two, at most 128, that does not exceed the value; zero gives 0, a negative value 7 |
| It87Driver.It87.UpdatePwmCtrl | custom/it87ts-1.0/it87ts.c:899-947 | rereading a channel reads back its control byte, duty or temperature map by mode and family, and its trip points; no register moves |
| It87Driver.It87.UpdateInputs | custom/it87ts-1.0/it87ts.c:967-982 | all voltage rows are reread where the chip has the input, limits for the first eight only |
| It87Driver.It87.UpdateFans | custom/it87ts-1.0/it87ts.c:984-999 | fan limits and speeds are reread, high bytes in 16-bit mode only |
| It87Driver.It87.UpdateTemps | custom/it87ts-1.0/it87ts.c:1000-1018 | temperatures, offsets and limits are reread where the chip has them |
| It87Driver.It87.UpdateDevice | custom/it87ts-1.0/it87ts.c:949-1065 | a stale or invalid cache becomes what the registers say, anything else is left alone |
| It87Driver.It87.SetIn | custom/it87ts-1.0/it87ts.c:1078-1098 | cache and register get the same converted limit, nothing else changes |
| It87Driver.It87.SetTemp | custom/it87ts-1.0/it87ts.c:1166-1204 | limit or offset in cache and register; an offset also enables bit 7 of the beep register and invalidates the cache |
| It87Driver.It87.SetTempType | custom/it87ts-1.0/it87ts.c:1332-1379 | the two sensor registers get the chosen type, an unknown type changes nothing |
| It87Driver.It87.SetFan | custom/it87ts-1.0/it87ts.c:1476-1519 | 16-bit: both bytes; 8-bit: the divisor is reread, then the count for it is stored |
| It87Driver.It87.SetFanDiv | custom/it87ts-1.0/it87ts.c:1521-1564 | new divisor field and the limit recomputed for it, as the tuning theorems take apart |
| It87Driver.It87.CheckTripPoints | custom/it87ts-1.0/it87ts.c:1567-1594 | true if and only if the trip points the chip family checks are non-decreasing |
| It87Driver.It87.SetPwmEnable | custom/it87ts-1.0/it87ts.c:1596-1666 | full on, manual or automatic by the on/off bit or the control byte, by chip family; refused values change nothing |
| It87Driver.It87.SetPwm | custom/it87ts-1.0/it87ts.c:1668-1707 | after rereading the channel: written, kept for later, or refused as busy, by mode and family |
| It87Driver.It87.FindFreq | custom/it87ts-1.0/it87ts.c:1724-1728 | the search loop stops at the first entry whose midpoint the request exceeds |
| It87Driver.It87.SetPwmFreq | custom/it87ts-1.0/it87ts.c:1709-1743 | one register gets the frequency bits, cache and register alike |
| It87Driver.It87.SetPwmTempMap | custom/it87ts-1.0/it87ts.c:1762-1806 | after rereading the channel the map is written in automatic mode and only kept in manual mode |
| It87Driver.It87.SetAutoPwm | custom/it87ts-1.0/it87ts.c:1821-1844 | trip duty in cache and in the register of its family |
| It87Driver.It87.SetAutoPwmSlope | custom/it87ts-1.0/it87ts.c:1856-1874 | slope in the low seven bits, the top bit kept |
| It87Driver.It87.SetAutoTemp | custom/it87ts-1.0/it87ts.c:1894-1923 | trip temperature, or hysteresis clamped into five bits, in cache and register |
| It87Coherence.RefreshAgrees | custom/it87ts-1.0/it87ts.c:949-1065 | after a refresh the cache agrees with every settings register, from any state |
| It87Coherence.FanDivDecodes | custom/it87ts-1.0/it87ts.c:1551-1556 | the byte written for three divisor fields decodes to those fields and keeps bit 7 |
| It87Coherence.SetFanDivKeeps | custom/it87ts-1.0/it87ts.c:1521-1564 | a coherent cache stays coherent over a divisor change |
| It87Coherence.SetPwmKeeps | custom/it87ts-1.0/it87ts.c:1668-1707 | a coherent cache stays coherent over a duty change |
| It87Coherence.SetPwmTempMapKeeps | custom/it87ts-1.0/it87ts.c:1762-1806 | a coherent cache stays coherent over a map change |
| It87Runs.SetPwmEnableKeeps | custom/it87ts-1.0/it87ts.c:1596-1666 | a coherent cache stays coherent over a mode change |
| It87Runs.StepKeeps | custom/it87ts-1.0/it87ts.c:1078-1923 | every attribute write and every refresh keeps the cache coherent |
| It87Runs.RunKeeps | custom/it87ts-1.0/it87ts.c:1078-1923 | so does every run of them |
| It87Runs.RefreshChangesNothing | custom/it87ts-1.0/it87ts.c:949-1065 | refreshing a coherent state changes none of its settings |
| It87Runs.CacheNeverStale | custom/it87ts-1.0/it87ts.c:949-1923 | after the first refresh, over every run: the cached limits, offsets, divisors, control bytes, trip points and frequency selections are what another refresh would read |
| It87Pwm.OthersDoNotSteer | custom/it87ts-1.0/it87ts.c:1078-1923 | no attribute but the channel's own mode, duty and map touches its duty, its control byte or its control register |
| It87Pwm.StepHoldsDuty | custom/it87ts-1.0/it87ts.c:1596-1806 | older chips, one step: if the register is manual it holds the duty last set |
| It87Pwm.ManualDutySurvives | custom/it87ts-1.0/it87ts.c:732-741 | older chips, over every run after the first refresh: whenever bit 7 of the control register is clear the register holds the duty last set, or first read |
| It87Pwm.ModeReadsBack | custom/it87ts-1.0/it87ts.c:1396-1408 | an accepted mode reads back as written, except that manual at full duty without an on/off bit reads as full speed |
| It87Pwm.ReachableModeReadsBack | custom/it87ts-1.0/it87ts.c:1596-1666 | the same in every state a run can reach, on both chip families |
| It87Pwm.RefreshedModeReadsBack | custom/it87ts-1.0/it87ts.c:1436-1444 | the same after a refresh, as the mode is shown: only that manual reads as full speed when the duty register, not the cached duty, is full |
| It87Pwm.TripPointsAreTheChips | custom/it87ts-1.0/it87ts.c:1567-1594 | in a coherent state the check of the cached trip points is a check of the chip's own |
| It87Pwm.AutomaticNeedsOrderedTrips | custom/it87ts-1.0/it87ts.c:1567-1613 | in every reachable state automatic mode is granted if and only if the trip points in the chip's registers are in order |
| It87Effects.StepChangesOnly | custom/it87ts-1.0/it87ts.c:949-1923 | every attribute write and every refresh changes no registers but the few it is for |
| It87Effects.NewerDutyWritten | custom/it87ts-1.0/it87ts.c:1668-1692 | newer chips: refused as busy in automatic mode, otherwise the number itself is in the duty register and the cache and no other register changes |
| It87Effects.OlderDutyWritten | custom/it87ts-1.0/it87ts.c:1693-1703 | older chips: half the number is cached, and in the control register unless that says automatic |
| It87Effects.ShownDuty | custom/it87ts-1.0/it87ts.c:805-819 | the duty shown after an accepted one is that one, rounded down to an even one on the older chips |
| It87Effects.FullSpeedWritten | custom/it87ts-1.0/it87ts.c:1625-1641 | mode 0 without an on/off bit: 255 in the duty register of a newer chip, 127 in the control register of an older one |
| It87Effects.OnOffWritten | custom/it87ts-1.0/it87ts.c:1615-1661 | mode 0 sets the on bit and clears the control bit of the channel, the other modes set the control bit; no other bit of the two registers changes |
| It87Effects.NewerModeWritten | custom/it87ts-1.0/it87ts.c:1633-1654 | newer chips: bits 0 and 1 of the control register become the cached map, bits 2 to 6 are the cached ones, bit 7 is set for automatic |
| It87Effects.OlderModeWritten | custom/it87ts-1.0/it87ts.c:1650-1654 | older chips: the control register becomes the cached duty, or 0x80 for automatic |
| It87Effects.NewerDutySurvives | custom/it87ts-1.0/it87ts.c:1596-1707 | newer chips, over every run that does not write the trip duty sharing the register: it holds the duty last accepted, or 255 after full speed |
| It87Stored.VoltageStep | custom/it87ts-1.0/it87ts.c:752-767 | the voltage steps of the four converters, doubled for scaled inputs |
| It87Stored.InStored | custom/it87ts-1.0/it87ts.c:1078-1098 | the limit asked for gets the nearest step in register and cache, the other limit stays |
| It87Stored.TempStored | custom/it87ts-1.0/it87ts.c:1166-1204 | the limit asked for gets the nearest whole degree, the other limit and the offset stay |
| It87Stored.OffsetStored | custom/it87ts-1.0/it87ts.c:1186-1203 | an offset gets the nearest degree, sets bit 7 of the beep register and no other bit of it, and invalidates the cache |
| It87Stored.FanStored | custom/it87ts-1.0/it87ts.c:1497-1514 | the 8-bit register gets 255 for no limit, 254 for a negative one, else the count nearest for the divisor the divisor register has |
| It87Stored.Fan16Stored | custom/it87ts-1.0/it87ts.c:1490-1496 | the two registers get 65535 for no limit, 1 for a negative one, else the nearest count, low byte and high byte |
| It87Stored.DecodedDivisor | custom/it87ts-1.0/it87ts.c:1020-1026 | the divisor register by number: three bits each for two fans, one bit for two or eight for the third |
| It87Stored.DivisorKeepsOff | custom/it87ts-1.0/it87ts.c:1537-1560 | a divisor change keeps a limit that is off, and makes a count of zero 254 |
| It87Stored.MapStored | custom/it87ts-1.0/it87ts.c:1762-1806 | 1, 2 and 4, three more on the later channels, are accepted and cached; in automatic mode they are in bits 0 and 1 of the control register, the others kept; in manual mode no register changes |
| It87Stored.TripDutyStored | custom/it87ts-1.0/it87ts.c:1821-1844 | a trip duty is stored as it is on newer chips, as half of it on older ones |
| It87Stored.SlopeStored | custom/it87ts-1.0/it87ts.c:1856-1874 | slopes below 128 go into the low seven bits, the top bit is the cached one; others are refused |
| It87Stored.HysteresisStored | custom/it87ts-1.0/it87ts.c:1908-1913 | the low five bits get the rounded distance from the first trip point within 0..31, the upper three are the cached ones |
| It87Stored.TripStored | custom/it87ts-1.0/it87ts.c:1914-1919 | a trip temperature is stored as the nearest whole degree in its own register |
| It87Stored.TypeStored | custom/it87ts-1.0/it87ts.c:1332-1379 | which types are accepted, and bit by bit what both sensor registers become |
| It87Stored.MeasuredRead | custom/it87ts-1.0/it87ts.c:967-1048 | a refresh reads measured voltages and temperatures and three whole registers |
| It87Stored.FansRead | custom/it87ts-1.0/it87ts.c:984-999 | a refresh reads fan speeds, with the high byte in 16-bit mode |
| It87Stored.BatterySampled | custom/it87ts-1.0/it87ts.c:958-966 | a refresh changes no register but sets bit 6 of the configuration register where the battery is sampled on demand |
| It87Stored.ChannelRead | custom/it87ts-1.0/it87ts.c:899-911 | where control byte, duty and temperature map come from, by mode and family |
| It87Tuning.FanDivChangesOneField | custom/it87ts-1.0/it87ts.c:1521-1557 | decoded again, only the selected channel's field differs and bit 7 is kept; the new divisor is the largest power of two up to 128 not above the request, or 2 or 8 for the third fan |
| It87Tuning.FanDivKeepsLimit | custom/it87ts-1.0/it87ts.c:1551-1561 | for old limits that decode to positive rpm, the new limit is the count in 1..254 nearest to 1350000 over old rpm times new divisor, in cache and register |
| It87Tuning.NearestFrequency | custom/it87ts-1.0/it87ts.c:1721-1728 | for every request of any size the index chosen minimises the distance to the scaled request, despite the clamp |
| It87Tuning.FreqChangesOneField | custom/it87ts-1.0/it87ts.c:1730-1739 | only bits 4 to 6 of one register change, and they hold the index |
| It87Tuning.ShownFrequencySelectsItself | custom/it87ts-1.0/it87ts.c:1457-1474 | for each channel that has the attribute: writing back the frequency that is shown changes no register and leaves the index shown as it was |
| It87Tuning.ShownMapAccepted | custom/it87ts-1.0/it87ts.c:1745-1790 | the shown map is accepted again if and only if the channel is one of the first three; there it selects itself |
| FwTable.LittleLe | scripts/ls500_install.sh:75-83 | the bytes of a number that fits, read least significant first, give the number |
| FwTable.Le32Carries | scripts/ls500_install.sh:75-78 | four printed bytes give the number back if and only if it is below 2^32 |
| FwTable.UcharOneByte | scripts/ls500_install.sh:85-88 | a number prints as one byte if and only if it is below 256 |
| FwTable.MountSize | scripts/ls500_install.sh:101-111 | a mount name and its padding fill exactly 32 bytes if and only if it has at most 32 and does not look like an echo option |
| FwTable.MountField | scripts/ls500_install.sh:101-111 | a name that fits is printed byte for byte, then zeros up to 32 |
| FwTable.MountTellsNames | scripts/ls500_install.sh:101-111 | two names without zero bytes print the same field if and only if they are equal |
| FwTable.MountUnfit | scripts/ls500_install.sh:101-111 | names that are too long are printed whole with a shortened padding; two-letter echo options leave 30 zeros |
| FwTable.MagicText | scripts/ls500_install.sh:2 | the magic is the text VERONA__ |
| FwTable.PartSize | scripts/ls500_install.sh:94-112 | with numbers that fit, a partition entry is 48 bytes exactly under that condition |
| FwTable.FwSize | scripts/ls500_install.sh:114-133 | a firmware entry is 32 bytes if and only if type and read-only flag fit their bytes |
| FwTable.ChecksumFile | scripts/checksum.py:5-10 | the loop computes the byte sum modulo 2^32 |
| FwTable.WriteTable | scripts/ls500_install.sh:283-312 | the file the script appends together is the table of the two lists, for lists of any length |
| FwReader.WordIs | scripts/ls500_install.sh:75-78 | a printed 32-bit number is read back wherever it stands |
| FwReader.LongIs | scripts/ls500_install.sh:19-31 | a printed length is shown as itself if and only if it is below 2^63 |
| FwReader.PartReadsBack | scripts/ls500_install.sh:186-201 | every field of a printed partition entry is read back, the mount name with the zeros behind it |
| FwReader.FwReadsBack | scripts/ls500_install.sh:206-228 | every field of a printed firmware entry is read back |
| FwReader.ListReadsBack | scripts/ls500_install.sh:184-229 | so is every list of entries of one size, entry by entry, for any such format |
| FwReader.TableReadsBack | scripts/ls500_install.sh:148-230 | a printed table anywhere in the window gives back both lists, both lengths and the stored checksum |
| FwReader.ParseUndoesPrint | scripts/ls500_install.sh:148-230 | parsing undoes printing for all lists whose fields fit, with anything before (but a table) and after |
| FwReader.OnlyEightMegabytes | scripts/ls500_install.sh:149 | what lies behind the first eight megabytes makes no difference |
| FwScan.MagicApart | scripts/ls500_install.sh:151 | two matches of the magic never overlap |
| FwScan.TableOffsets | scripts/ls500_install.sh:151 | the search returns exactly the places that carry the magic, in order |
| FwScan.Checksum | scripts/ls500_install.sh:33-51 | the loop that subtracts the limit computes the reduced sum of the stretch |
| FwScan.ReadTable | scripts/ls500_install.sh:184-229 | the two loops walk the entries the header's lengths announce |
| FwScan.Analyze | scripts/ls500_install.sh:148-230 | the result is the first table of version one in the first eight megabytes, or none |
| FwScan.ReducedIsSum | scripts/ls500_install.sh:33-51 | subtracting the limit on the way is the sum modulo 2^32 - 1 |
| FwScan.SumsAgree | scripts/ls500_install.sh:174 | below the limit the two checksums agree if and only if the last byte is zero |
| FwScan.TableVerifies | scripts/ls500_install.sh:301-312 | for a printed body of at most eight megabytes they agree if and only if there is a firmware entry, or no partition, or the last mount name ends in a zero byte |
| FwScan.PrintedTableVerifies | scripts/ls500_install.sh:168-174 | so the installer, reading back what it printed, shows equal checksums in exactly those cases |
| FlashLayout.Aligned | scripts/ls500_install.sh:135-146 | every image starts and ends at an erase block, for all sizes |
| FlashLayout.RegionsApart | scripts/ls500_install.sh:272-276 | the regions behind the table follow each other without gap or overlap |
| FlashLayout.TableFits | scripts/ls500_install.sh:318-320 | the table stays clear of the first image if and only if it has at most 0x7c0000 bytes |
| FlashLayout.Places | scripts/ls500_install.sh:135-319 | the fixed offsets, the megabyte for the audio firmware, and rounding up to whole erase blocks, by number |
| FlashLayout.PagesInBlocks | scripts/ls500_install.sh:351-364 | the whole pages written for an image lie in the blocks erased for it, for every page size that divides the erase block |
| FlashLayout.Install1Local | scripts/ls500_install.sh:351-352 | a non-empty image is written onto free cells only; then it is in place, the rest of its last page is 0xff, the rest of its last block is free, and nothing outside its blocks has changed |
| FlashLayout.Nand.InstallAll | scripts/ls500_install.sh:252-364 | the script's steps are the installation the theorems are about |
| FlashLayout.InstallDoes | scripts/ls500_install.sh:351-364 | afterwards every image fills its blocks in that way, everything outside the five images' blocks is as before, the audio firmware in particular |
| FlashLayout.WrittenOnFree | scripts/ls500_install.sh:351-364 | each of the five images, in the state in which it is written, finds all its pages free |
| FlashLayout.AudioSafeExactly | scripts/ls500_install.sh:351-358 | no audio cell is erased or written if and only if the table and both device trees are not empty and the table's blocks end before it |
| FwInstall.InstalledTableIsFound | scripts/ls500_install.sh:148-364 | after installing a printed table onto flash with no table below it, analyzing the flash finds it and gives back every field |
| LibraryClosure.OnePass | scripts/functions.sh:200-213 | the for loop does to list, directory and flag what one pass is defined to do, over the names as they stood at its start |
| LibraryClosure.ImportLibraries | scripts/functions.sh:197-214 | where everything wanted can be found the loop ends, with exactly the wanted libraries beside what was there |
| LibraryClosure.BringAllDoes | scripts/functions.sh:200-212 | a pass that asks for no other found everything present; one that does copied something or missed something |
| LibraryClosure.PassCopies | scripts/functions.sh:198-214 | while everything wanted can be found, each repeated pass copies at least one new library |
| LibraryClosure.StopsWithTheClosure | scripts/functions.sh:183-214 | whenever the loop stops, the directory holds what it held and the libraries reachable through NEEDED: none missing, none extra |
| LibraryClosure.StopsExactlyWhenAllFound | scripts/functions.sh:183-214 | the loop stops if and only if every wanted library can be found, and then within one pass more than there are libraries to copy |
| MiconFrames.ResidueIsSum | custom/libmicon.py:197-204 | reducing byte by byte is the sum modulo 256 |
| MiconFrames.CheckByteCloses | custom/libmicon.py:184-194 | the check byte brings any bytes to sum zero, and is zero exactly for bytes that already do |
| MiconFrames.ChangedByteShows | custom/libmicon.py:197-204 | changing any one byte of a frame that closes breaks its sum |
| MiconFrames.CalcCheckByte | custom/libmicon.py:184-194 | the loop, complement and increment compute the check byte |
| MiconFrames.CalcChecksum | custom/libmicon.py:197-204 | the loop computes the residue of the sum |
| MiconCommands.ReadTransmits | custom/libmicon.py:215-274 | over any line: a read command sends at most nine frames, for attempt k at most three copies of the first frame followed by k zero bytes, all closing |
| MiconCommands.NextAttempt | custom/libmicon.py:215-216 | closing the frame of attempt k gives the frame of attempt k + 1: one zero byte more |
| MiconCommands.ReadReturnsPayload | custom/libmicon.py:252-274 | over any line: returned data is the exact payload of the last response received, which closes, is a read answer and has the length it announces; and it is the first response that carries data, none having done so when nothing is returned |
| MiconCommands.ReadRecorded | custom/libmicon.py:206-274 | what a read command is said to write and to hear is what any line that keeps records has recorded |
| MiconCommands.ReadFollows | custom/libmicon.py:215-274 | what holds over every write and response, and over what is put together of such, holds over the whole read command |
| MiconRetries.ReadRetries | custom/libmicon.py:215-274 | for every k below 9: after k tries without a response that closes and then one with data, exactly k + 1 frames have gone out and that data is returned |
| MiconRetries.ReadGivesUp | custom/libmicon.py:215-274 | after nine such tries it is given up: three frames for each of the attempts 0, 1 and 2, with 32 ones after each garbled response |
| MiconRetries.WriteRetries | custom/libmicon.py:215-250 | for every k below 3: after k failed tries and then a response that closes, k + 1 copies of the frame have gone out and the response decides |
| MiconRetries.WriteGivesUp | custom/libmicon.py:215-250 | after three failed tries of a write it is given up |
| MiconCommands.StreamSplits | custom/libmicon.py:288-295 | on any line whose responses are frames, repeated reading splits a concatenation of frames into exactly those frames |
| MiconLine.ResponseIsFrame | custom/libmicon.py:288-295 | where no read times out early, a response to a stream that starts with a frame is that frame |
| MiconLine.ResponseReads | custom/libmicon.py:288-295 | one byte, then as many as its low seven bits announce and two more, or up to 32 when none comes |
| MiconLine.LineSplits | custom/libmicon.py:288-295 | so on the serial line every concatenation of well-formed frames is split into exactly those frames |
| MiconLine.ReadOnTheWire | custom/libmicon.py:206-295 | on the serial line, whatever the device answers and however late: at most nine closing command frames are written; what was unread and what came in answer is exactly the responses heard and what is still unread; returned data is the payload of the last of them |
| MiconDriver.Micon.SendCmd | custom/libmicon.py:215-250 | the caller's array gets its check byte, and the retry loop ends where the command function does, for every line |
| MiconDriver.Micon.SendReadCmd | custom/libmicon.py:252-274 | the attempts share one array that grows; end and outcome are those of the read command |
| MiconDriver.Micon.SendWriteCmd | custom/libmicon.py:276-286 | length, address and data in one frame; end and outcome are those of the write command |
| MiconDriver.Micon.GetResponse | custom/libmicon.py:288-295 | first byte, then as many more as it announces, or up to 32 |
| MiconDriver.Micon.CmdSetLed | custom/libmicon.py:322-349 | the three register changes of the LED panel, in order, stopping where the source raises |
| MiconDriver.Micon.CmdSetSataled | custom/libmicon.py:300-320 | the two register changes of the SATA panel |
| MiconLeds.BitOfCombine | custom/libmicon.py:327-331 | or-ing and masking act bit by bit |
| MiconLeds.SetLedsObeyed | custom/libmicon.py:300-349 | against a device that obeys, a call leaves every register of its panel changed as its rule says, and no other |
| MiconLeds.LastDecides | custom/libmicon.py:300-349 | the last call naming an LED decides its bit |
| MiconLeds.UnnamedStays | custom/libmicon.py:300-349 | an LED no call names keeps its bit |
| MiconLeds.LedsEndAsLastDemanded | custom/libmicon.py:300-349 | over any run of calls every LED's bit in every register of the panel ends as the last call naming it demands, or as it was; other registers are unchanged |
| MiconLeds.FaithfulObeys | custom/libmicon.py:252-286 | a device on the wire that keeps registers and answers frames is a device that obeys |
| MiconLeds.PanelsOnTheWire | custom/libmicon.py:300-349 | the run theorem for both panels on the wire, from any registers |
| MiconLeds.LedEnds | custom/libmicon.py:322-349 | after the last call naming an LED it is enabled in 0x50, blinks in 0x52 exactly for mode 2, and is on in 0x51 exactly if the mode is not 0 |
| MiconLeds.SataLedEnds | custom/libmicon.py:300-320 | the same for the two registers 0x59 and 0x58 of the disk LEDs |
| GpioMap.PadTable0 | custom/gpio_dnv-1.0/pinctrl-dnv.c:129-133 | numbers 0 to 39 of the configuration table are the tabled offsets |
| GpioMap.PadTable40 | custom/gpio_dnv-1.0/pinctrl-dnv.c:134-139 | numbers 40 to 79 |
| GpioMap.PadTable80 | custom/gpio_dnv-1.0/pinctrl-dnv.c:140-144 | numbers 80 to 119 |
| GpioMap.PadTable120 | custom/gpio_dnv-1.0/pinctrl-dnv.c:145-150 | numbers 120 to 152, with the five that name no pad |
| GpioMap.PadAtUndoes | custom/gpio_dnv-1.0/pinctrl-dnv.c:127-188 | the configuration table can be read backwards within a community |
| GpioMap.PadsApart | custom/gpio_dnv-1.0/pinctrl-dnv.c:127-188 | no two pads share a configuration word |
| GpioMap.RegsOfApart | custom/gpio_dnv-1.0/pinctrl-dnv.c:73-214 | whatever register two interrupt pads share, they share no bit of it |
| GpioSpec.SetKindOnView | custom/gpio_dnv-1.0/pinctrl-dnv.c:467-534 | setting the interrupt kind does to the pad's words and bits what the view says; an unknown kind only clears the two owners |
| GpioSpec.AckOnView | custom/gpio_dnv-1.0/pinctrl-dnv.c:673-696 | acknowledging clears the pad's status bit, and flips the polarity for both edges |
| GpioRuns.OwnStep | custom/gpio_dnv-1.0/pinctrl-dnv.c:397-615 | a call does to its own pad what it would do to that pad alone |
| GpioRuns.OtherStep | custom/gpio_dnv-1.0/pinctrl-dnv.c:397-696 | a call on one pad changes neither word of another, nor any of its bits in the shared registers |
| GpioRuns.PadsAreIndependent | custom/gpio_dnv-1.0/pinctrl-dnv.c:397-696 | over any run of calls every pad ends as if the calls on it had been made on that pad alone |
| GpioRuns.SuspendSaves | custom/gpio_dnv-1.0/pinctrl-dnv.c:884-915 | suspend saves the masked words of every unlocked pad and keeps the older context of a locked one; no register changes |
| GpioRuns.ResumeRestores | custom/gpio_dnv-1.0/pinctrl-dnv.c:918-959 | after resume every unlocked pad's words are the restored ones and every other register is as before |
| GpioRuns.SuspendResume | custom/gpio_dnv-1.0/pinctrl-dnv.c:884-959 | whatever happens in between: a pad unlocked at both ends gets back exactly the bits under the two masks, keeps the others; a locked pad and every other register is left alone |
| GpioRuns.RestoredExactly | custom/gpio_dnv-1.0/pinctrl-dnv.c:884-959 | from every state the driver can be in, a pad unlocked at resume gets back its masked bits if and only if it was unlocked at suspend too or the older context equals what it held |
| GpioRuns.LiveKeepsUnderMasks | custom/gpio_dnv-1.0/pinctrl-dnv.c:884-915 | over every run of calls, suspends, resumes and foreign register changes the saved words keep to the two masks |
| GpioRuns.LockedPadIsLost | custom/gpio_dnv-1.0/pinctrl-dnv.c:900-957 | a concrete pad, locked at the first suspend and unlocked at resume, that does not get its bits back |
| GpioBits.PadBits | custom/gpio_dnv-1.0/pinctrl-dnv.c:397-615 | request, input, output and level on any pad, bit by bit; all other bits are kept |
| GpioBits.KindBits | custom/gpio_dnv-1.0/pinctrl-dnv.c:467-534 | setting an interrupt kind, bit by bit: inversion, trigger, routing, owners and event bit; what a refused kind changes |
| GpioBits.AckBits | custom/gpio_dnv-1.0/pinctrl-dnv.c:673-696 | the pending bit is cleared, and bit 23 flips exactly if it was pending and both edges are wanted |
| GpioBits.BitsRestored | custom/gpio_dnv-1.0/pinctrl-dnv.c:64-71 | the bits of the two words that come back after suspend and resume, by number |
| GpioBits.LockTable | custom/gpio_dnv-1.0/pinctrl-dnv.c:77-91 | the lock registers of the thirteen pads |
| GpioBits.EventTable | custom/gpio_dnv-1.0/pinctrl-dnv.c:93-107 | their event enable registers, and the distances of status and host ownership |
| GpioBits.OwnerTable | custom/gpio_dnv-1.0/pinctrl-dnv.c:109-123 | their ownership registers |
| GpioBits.BitTables | custom/gpio_dnv-1.0/pinctrl-dnv.c:191-214 | their bits in these registers |
| GpioBits.WordPlaces | custom/gpio_dnv-1.0/pinctrl-dnv.c:128-188 | the configuration words at the ends of each stretch of pads, and which numbers name a pad |
| GpioDriver.DnvGpio.RequestPad | custom/gpio_dnv-1.0/pinctrl-dnv.c:397-432 | the method is the request step; refused exactly for numbers that name no pad |
| GpioDriver.DnvGpio.SetLevel | custom/gpio_dnv-1.0/pinctrl-dnv.c:549-569 | the method is the level step |
| GpioDriver.DnvGpio.DirectionInput | custom/gpio_dnv-1.0/pinctrl-dnv.c:571-589 | the method is the input step |
| GpioDriver.DnvGpio.DirectionOutput | custom/gpio_dnv-1.0/pinctrl-dnv.c:591-615 | the method is the output step |
| GpioDriver.DnvGpio.IrqSetType | custom/gpio_dnv-1.0/pinctrl-dnv.c:467-534 | the method is the interrupt kind step; accepted exactly for the known kinds |
| GpioDriver.DnvGpio.IrqAck | custom/gpio_dnv-1.0/pinctrl-dnv.c:673-696 | the method is the acknowledge step |
| GpioDriver.DnvGpio.SuspendAll | custom/gpio_dnv-1.0/pinctrl-dnv.c:884-915 | the loop is the suspend of the theorems |
| GpioDriver.DnvGpio.ResumeAll | custom/gpio_dnv-1.0/pinctrl-dnv.c:918-959 | the loop is the resume of the theorems |

## Left out

- Kernel plumbing around both drivers: sysfs parsing and registration, mutexes and spin locks, platform devices, runtime
  power management; every call runs alone.
- IT87: live sensor values, alarms, vid and beep attributes, get_temp_type, the Super-I/O probing and the attribute
  visibility functions; which attribute is writable on which chip is taken from the latter as a condition on runs.
- IT87: state before the first refresh, and the cached temperature map, which the driver itself drops.
- IT87: on newer chips the manual duty and the first trip duty of a channel share a register; their caches are not
  claimed to agree.
- It87Driver.It87.SetFan: for 16-bit fans the most negative rpm is excluded, because doubling it makes the divisor zero
  and the source has no result there; that it is the only one is proved.
- It87Driver.It87.UpdateDevice: the alarm and vid values, which nothing else reads, are not reread.
- It87Driver.It87.constructor: the corrections initialisation makes to register contents are not part of it; every theorem
  holds for any contents.
- It87Runs.CacheNeverStale: measured values and the beep byte are not compared, they are not settings.
- FwTable.WriteTable: numbers above 2^53, which awk holds as floating point, are modelled as exact; mount names are bytes,
  not characters of a multibyte locale; echo is the shell's own with its default options.
- FwReader.PartReadsBack: the mount field is read back as its 32 bytes; the dump of it as text is left out.
- LS500 installer: terminal prompts, layout.txt, the checksums of the image files themselves, bad blocks, and everything
  behind the exit.
- LibraryClosure.ImportLibraries: needs every wanted library to be found, since otherwise the source's loop never ends;
  that it never ends is proved on the pass function.
- LibraryClosure.OnePass: copying itself, several files of one name, and names that the search would take for patterns.
- Micon: the v3 text protocol, display and fan commands; the debug output; a reply too short to carry a response code is
  modelled as the exception the source runs into.
- MiconLeds.Combine: bitwise or and and-not are defined on the numbers bit by bit.
- GPIO: dnv_gpio_get, the interrupt handler, the debug file, dnv_gpio_free and dnv_gpio_clear_triggering.
- GPIO: lock, ownership and event registers are modelled for pads 0 to 12 only, where the source's small tables end; the
  resume loop's test of a variable not yet set is modelled as the mask test beside it.
- GpioDriver.DnvGpio.SuspendAll: the loop runs over the thirteen pads that have a lock bit; the source skips all others.
