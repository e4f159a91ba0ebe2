# okano-tomoyuki/utility in Dafny

A model of the deterministic core of the `utility` collection of small C++
helpers, with its properties proved:

- **Core** (`include/utility/core.hpp`): `split`, `concat`, `zero_fill`,
  both `limit` overloads, `range(end)` and `is_exist`.
- **Date and time text** (`include/utility/date_time.hpp`,
  `src/utility/date_time.cpp`): `zero_fill`, `dump`, `to_str`, the
  positional `parse` and `from_str` with its per-field ranges and the
  Gregorian leap-year rule. A `DateTime` is a value of eight integer fields;
  its field constructor and `operator=` are the datatype's constructor and a
  value copy, its accessors the field selectors.
- **Millisecond arithmetic and timers** (`include/date_time.hpp`,
  `include/utility/process_timer.hpp`, `src/utility/process_timer.cpp`):
  `add`/`diff` over epoch milliseconds, the unnamed-timer counter,
  `restart`, the `H:M:S.mmm` text of `measure` and the destructor's wait.
- **INI files** (`include/utility/ini.hpp`, `src/utility/ini.cpp` and
  `TIniFile` in `include/builder_alternative/System.hpp`): `trim`, the
  line classifier with its four errors, first-match lookup, `set_field`'s
  replace / insert / append rewrite, the `read_*`/`write_*` members and the
  `strtol`-based integer check. The file is its text, split into lines.
- **Builder-compatible classes** (`include/builder_alternative/System.hpp`):
  `AnsiString`'s 1-based operations, `TDateTime::FormatString` with its
  quote escaping and `CompareTime`, and `TPath`'s
  tokenize/set/str/parent_path/filename/extension/`operator/`/`operator==`.
- **DataFrame** (`include/utility/pythonian/data_frame.hpp`,
  `src/utility/pythonian/data_frame.cpp`): CSV line split/join, `read_csv`
  over the file's text, the four `operator[]` selections and `rename`.
- **Logger** (`include/utility/logger.hpp`), a string buffer, and the
  **Enumerate** adapter (`include/enumerate.hpp`,
  `include/utility/pythonian/enumerate.hpp`).
- **Shared memory** (`include/utility/shared_memory.hpp`, the `__unix__`
  build): `make_hash`, proved to be CRC-32/MPEG-2 with its table checked
  entry by entry against the polynomial, and the create-or-attach, lock,
  copy and detach protocol over a `Registry` object standing for the
  kernel's System V IPC tables, run in one thread.

Code that updates state in place is modelled by classes and loops, each
method proved against a specification function whose properties are
lemmas; pure code is modelled by functions. Clocks are parameters.
Integers are unbounded; where the source's width matters it is written out
(`KeyOf`, `ToInt32`, the `long` range of `stol`).

## Model

| member | source | states |
|---|---|---|
| Core.Limit | include/utility/core.hpp:65-69 | `limit(v, lo, hi)` is `max(min(v, hi), lo)`: when `lo <= hi` the result lies in `[lo, hi]`, a value already in range is returned unchanged, a value below `lo` gives `lo`, and a value above `hi` gives `hi` (or `lo` when the bounds are crossed) |
| Core.LimitSymmetric | include/utility/core.hpp:59-63 | `limit(v, L)` clamps into `[-L, L]` when `L >= 0` and leaves a value already in that range unchanged |
| Core.LimitSymmetricIsLimit | include/utility/core.hpp:59-69 | the one-bound overload is the two-bound overload with bounds `-L` and `L` |
| Core.LimitIdempotent | include/utility/core.hpp:65-69 | clamping twice into the same well-ordered bounds is the same as clamping once |
| Core.ZeroFill | include/utility/core.hpp:175-179 | `zero_fill(number, digits)` is `to_string(number)` preceded by '0's up to `digits` characters, never truncated |
| Core.ZeroFillReadsBack | include/utility/core.hpp:175-179 | for a non-negative number, reading back `zero_fill(n, d)` with `stol` gives `n` whatever the width: the padding is leading zeros followed by `to_string(n)` |
| Core.Range | include/utility/core.hpp:134-139 | `range(end)` has exactly `end` elements and element `i` is `i` |
| Core.Find | include/utility/core.hpp:201-205 | the position `std::find` stops at: every earlier element differs from the value, and a position before the end holds the value |
| Core.IsExist | include/utility/core.hpp:201-205 | `is_exist(v, list)` is true exactly when `v` occurs in `list` |
| Core.Texts | include/utility/core.hpp:96 | one `to_string` text per element, in order |
| Core.TerminatedIsJoin | include/utility/core.hpp:94-96 | appending every text followed by the separator gives the separator-join of the texts plus one trailing separator |
| Core.Concat | include/utility/core.hpp:91-101 | after the loop and the `pop_back` of exactly `|separator|` characters, the result is the texts of the elements joined by the separator |
| Core.PopBack | include/utility/core.hpp:97-99 | `count` calls of `pop_back` remove exactly the last `count` characters |
| Core.Pieces | include/utility/core.hpp:111-131 | splitting at the leftmost occurrences of a non-empty separator yields at least one piece |
| Core.SplitSpec | include/utility/core.hpp:103-132 | an empty origin splits into no pieces and an empty separator gives the origin as the only piece |
| Core.Split | include/utility/core.hpp:103-132 | the `find` loop of `split` computes exactly the pieces of the specification, including both early returns |
| Core.SplitStep | include/utility/core.hpp:118-129 | one turn of the `split` loop keeps "pieces found so far + pieces of the rest = all pieces" |
| Core.SplitDone | include/utility/core.hpp:119-123 | when `find` reports `npos`, the rest of the string added as the last piece completes all the pieces |
| Core.PiecesNotFound | include/utility/core.hpp:120-124 | when `find` reports no further occurrence, the rest of the origin is the last piece |
| Core.PiecesFoundAt | include/utility/core.hpp:127-129 | when `find` reports an occurrence at `p`, the next piece is the text before `p` and splitting resumes right after the separator |
| Core.JoinPieces | include/utility/core.hpp:103-132 | joining the pieces of `split` with the separator gives back the origin |
| Core.PiecesFree | include/utility/core.hpp:111-131 | no piece contains an occurrence of the separator |
| Core.PiecesOfJoin | include/utility/core.hpp:103-132 | splitting a join of separator-free parts gives back the parts |
| Core.SplitConcat | include/utility/core.hpp:91-132 | `split(concat(v, sep), sep)` gives the `to_string` texts of `v` back whenever the separator holds no digit and no `-` |
| Ints.Abs | include/date_time.hpp:114-119 | the magnitude of a value, never negative |
| Ints.Quot | include/date_time.hpp:114-119 | C++ integer division: it truncates toward zero, so its magnitude is the floor of the magnitudes' quotient and its sign is the product of the operands' signs |
| Ints.Rem | include/date_time.hpp:114-119 | the C++ `%` that goes with `Quot`: quotient times divisor plus remainder is the dividend, and the remainder takes the dividend's sign |
| Ints.QuotOfMultiple | include/date_time.hpp:114-119 | dividing an exact multiple gives back the factor with no remainder |
| Ints.QuotOfNat | include/date_time.hpp:114-119 | for non-negative operands truncating division agrees with Dafny's division |
| Ints.QuotNegate | include/date_time.hpp:114-119 | truncation is symmetric: negating the dividend negates the quotient |
| Ints.QuotMonotone | include/date_time.hpp:114-119 | truncating division by a positive divisor is monotone |
| Text.FirstNonSpace | include/utility/ini.hpp:89 | the first index from which no character of `" \t\n\r\f\v"` remains to be skipped: every character before it is whitespace and the one at it is not |
| Text.LastNonSpaceEnd | include/utility/ini.hpp:82-88 | the end of the text after `find_last_not_of`: every character from it on is whitespace and the one before it is not |
| Text.TrimLeft | include/builder_alternative/System.hpp:152-161 | `TrimLeft` removes a whitespace prefix and nothing else, and what remains does not start with whitespace |
| Text.TrimRight | include/builder_alternative/System.hpp:141-150 | `TrimRight` removes a whitespace suffix and nothing else, and what remains does not end with whitespace |
| Text.TrimBothEnds | include/utility/ini.hpp:79-90 | `trim` is the left trim applied after the right trim |
| Text.TrimIsSlice | include/utility/ini.hpp:79-90 | `trim` returns a contiguous slice of its input that neither starts nor ends with whitespace |
| Text.TrimFree | include/utility/ini.hpp:79-90 | trimming cannot introduce a character that was not in the input |
| Text.TrimIdempotent | include/utility/ini.hpp:79-90 | trimming twice is trimming once |
| Text.TrimAllSpace | include/utility/ini.hpp:83-84 | an all-whitespace string trims to the empty string |
| Text.TrimNoOp | include/utility/ini.hpp:79-90 | a string that neither starts nor ends with whitespace is returned unchanged |
| Text.FindFrom | include/utility/core.hpp:118 | `std::string::find(pat, from)`: the leftmost occurrence at or after `from`, and `None` (npos) exactly when there is none |
| Text.FindFirstOf | include/builder_alternative/System.hpp:606 | `find_first_of(chars, from)`: the first position at or after `from` holding one of the characters, and `None` exactly when there is none |
| Text.FindFromChar | include/builder_alternative/System.hpp:196-202 | searching for a one-character string is searching for that character |
| Text.FindAtStart | include/utility/core.hpp:118 | a search from 0 reports position 0 exactly when the text starts with the pattern |
| Text.FindFromAbsent | include/utility/date_time.hpp:129 | a search finds nothing when the pattern's first character does not occur in the searched part |
| Text.Repeat | include/utility/core.hpp:178 | `std::string(n, c)`: `n` copies of `c` |
| Text.ZeroPad | include/utility/date_time.hpp:95-102 | `zero_fill(s, d)` is `max(0, d - |s|)` zeros followed by `s`: never truncated, length `max(d, |s|)` |
| Text.NatToString | include/utility/core.hpp:177 | `to_string` of a non-negative value is a non-empty run of decimal digits |
| Text.NatToStringValue | include/utility/core.hpp:177 | the digits of `to_string(n)` denote `n`, without leading zeros except for `0` itself |
| Text.NatToStringInjective | include/utility/core.hpp:177 | different non-negative values have different `to_string` texts |
| Text.NatToStringLength | include/utility/core.hpp:177-178 | `to_string(n)` fits in `k` characters exactly when `n < 10^k`, so a field value below `10^k` never overflows a width-`k` padding |
| Text.DigitPrefix | include/utility/ini.hpp:342 | the longest leading run of decimal digits |
| Text.DigitPrefixOf | include/utility/ini.hpp:342 | a digit run followed by a non-digit is read as exactly that run |
| Text.ZeroPadReadsBack | include/utility/date_time.hpp:95-102 | `stol` of a zero-padded `to_string(n)` followed by a non-digit reads `n` back |
| Text.LeadingIntOfDigits | include/utility/date_time.hpp:137 | `stol` of a text starting with a digit is the value of its leading digit run |
| Text.LeadingIntNegative | include/utility/date_time.hpp:137 | `stol` of `-` followed by digits is the negated value of the digits |
| Text.LeadingIntUnsigned | include/utility/date_time.hpp:137 | `stol` of a text without leading whitespace or sign is the value of its leading digit run |
| DateTimes.MonthLength | src/utility/date_time.cpp:86-95 | the day bound `from_str` uses: 31 days for January, March, May, July, August, October and December; 30 for April, June, September and November; and for February 29 exactly in a Gregorian leap year (divisible by 4 and not a century year unless divisible by 400), otherwise 28 |
| DateTimes.ZeroFill | src/utility/date_time.cpp:13-20 | the loop that prepends '0' while `remain--` is non-zero leaves `max(0, digit - |str|)` zeros followed by `str` |
| DateTimes.ReplaceAllNotFound | src/utility/date_time.cpp:28-30 | from a position after which the token no longer occurs, `dump` leaves the rest unchanged |
| DateTimes.ReplaceAllAt | src/utility/date_time.cpp:31-37 | at the first occurrence `p` after the position, the text before `p` is kept, the token gives way to the replacement, and the search resumes after the token's end in the original |
| DateTimes.Dump | src/utility/date_time.cpp:22-39 | `dump` replaces every occurrence of the token, found left to right, and never rescans inserted text (the search resumes at `pos + rep.size()`) |
| DateTimes.DumpStep | src/utility/date_time.cpp:33-36 | one splice `l + rep + r` followed by `pos += rep.size()` keeps "text before `pos` + replacement of the rest" equal to the final result |
| DateTimes.ReplaceAllIsJoin | include/utility/date_time.hpp:104-121 | the result of `dump` is the text split at the token (the pieces of `split`) joined with the replacement |
| DateTimes.ReplaceAllSame | include/utility/date_time.hpp:104-121 | replacing a token by itself changes nothing, so a substitution never runs away on its own output |
| DateTimes.TokenTexts | include/utility/date_time.hpp:220-227 | the eight texts `to_str` writes: the year unpadded, month, day, hour, minute and second padded to 2, `1000*msec + usec` padded to 6, `msec` padded to 3 |
| DateTimes.DumpTokens | include/utility/date_time.hpp:216-230 | the eight `dump` calls in the fixed order yyyy, mm, dd, hh, nn, ss, zzzzzz, zzz, each applied to the output of the previous one |
| DateTimes.ToStr | src/utility/date_time.cpp:166-180 | `to_str(format)` is the format with every token replaced, in the fixed order, by the field's padded text |
| DateTimes.Mask | src/utility/date_time.cpp:63-64 | `replace(pos, n, n, '*')` keeps the length unless the window runs past the end, where it grows to `pos + n` |
| DateTimes.MaskAt | src/utility/date_time.cpp:63-64 | inside the masked window every character is '*' and outside it the string is unchanged |
| DateTimes.TurnAt | src/utility/date_time.cpp:45-76 | one turn of `parse`: it stops with success exactly when the token no longer occurs; it stops with an error for a slice past the end, an unconvertible slice or a value outside `[low, high]`; otherwise it goes on with a value in range, a format of the same length and a later position |
| DateTimes.TurnAtFound | src/utility/date_time.cpp:47-75 | at an occurrence `p`: `substr` throws past the end, `stol` failing is the conversion error, an out-of-range value is the range error, and otherwise both strings are masked, the value taken and the search resumes at `p + |token|` |
| DateTimes.ParseFrom | include/utility/date_time.hpp:123-160 | a successful `parse` leaves either the starting value or a value in `[low, high]`, and the format keeps its length |
| DateTimes.ParseTurn | src/utility/date_time.cpp:47-75 | the loop body computes exactly one turn |
| DateTimes.Parse | src/utility/date_time.cpp:41-78 | the `parse` loop computes `ParseFrom` from position 0, including all three error exits |
| DateTimes.ParseFromConsumes | include/utility/date_time.hpp:123-160 | after a successful `parse` the masked format holds no occurrence of the token, so a later, shorter token (`zzz` after `zzzzzz`) cannot match the same positions |
| DateTimes.MaskedNoMatch | include/utility/date_time.hpp:145-146 | masking the occurrence at `p` leaves no occurrence of the token starting before `p + |token|` |
| DateTimes.FromStr | include/utility/date_time.hpp:232-265 | `from_str` starting from the corrected defaults (day 1, see Findings): the eight `parse` calls in order, the day bound from the parsed year and month, `zzzzzz` split into `msec = v/1000` and `usec = v%1000` before `zzz` is read, and every `runtime_error` rethrown as one error (an `out_of_range` from `substr` passes through) |
| DateTimes.FromStrAsWritten | include/utility/date_time.hpp:237 | `from_str` as written, starting from day 0: a parsed month is in range and the day is 0 (no `dd` token read) or within that month |
| DateTimes.FromStrRanges | src/utility/date_time.cpp:88-101 | each field of a parsed value keeps its starting value or lies in its token's range: year 1970-2300, month 1-12, day up to the month's length, hour 0-23, minute and second 0-59, millisecond and microsecond 0-999 |
| DateTimes.FromStrValid | include/utility/date_time.hpp:237-253 | starting from 1970-01-01 00:00:00, whatever `from_str` returns is a valid date and time |
| DateTimes.FromStrAsWrittenDayZero | src/utility/date_time.cpp:85 | as written, `day = hour = ... = 0` overrides `day = 1`, so "2020" read with "yyyy" gives 2020-01-00, a day no month has |
| DateTimes.FromStrYearOnly | include/utility/date_time.hpp:237-253 | with only a year token, every other field keeps its starting value |
| DateTimes.ParseFromAbsent | include/utility/date_time.hpp:128-131 | a token absent from the format leaves input, format and value unchanged |
| EpochTime.UnitMillis | include/date_time.hpp:90-97 | the milliseconds in one unit, at least one |
| EpochTime.Add | include/date_time.hpp:87-100 | `add(ms, v, unit)` moves `ms` by exactly `v` units: `v`, `1000 v`, `60000 v` or `3600000 v` milliseconds |
| EpochTime.Diff | include/date_time.hpp:108-122 | `diff(l, r, unit)` is `l - r` in milliseconds, and in a coarser unit the number of whole units in it truncated toward zero (`diff(-1999, 0, SECOND) = -1`); its sign follows `l - r` |
| EpochTime.DiffOfAdd | include/date_time.hpp:87-122 | for every unit, `diff(add(x, v, u), x, u) == v` |
| EpochTime.DiffAntisymmetric | include/date_time.hpp:108-122 | swapping the operands of `diff` negates the result, because truncation is symmetric about zero |
| EpochTime.DiffMonotone | include/date_time.hpp:108-122 | `diff` never decreases as its left operand grows |
| EpochTime.UnitTicks | include/date_time.hpp:196-211 | the clock ticks (nanoseconds) in one unit |
| EpochTime.TimerName | include/date_time.hpp:169-172 | a non-empty name is kept; an empty name becomes `Timer_` followed by the decimal id |
| EpochTime.UnnamedTimerIds.constructor | include/date_time.hpp:167 | the shared counter of unnamed timers starts at 0 |
| EpochTime.ProcessTimer.constructor | include/date_time.hpp:163-176 | the timer keeps a non-empty name or takes `Timer_<n>` for the `n`-th unnamed timer, advancing the shared counter only then; the base time is the clock reading |
| EpochTime.ProcessTimer.Restart | include/date_time.hpp:188-193 | `restart` moves the base time to the clock reading and changes nothing else |
| EpochTime.ProcessTimer.Measure | include/date_time.hpp:196-211 | `measure(unit)` is the number of whole units elapsed since the base time, truncated toward zero, and not negative once the clock has not gone back |
| EpochTime.ProcessTimer.MeasureMonotone | include/date_time.hpp:196-211 | a later clock reading never gives a smaller measurement |
| Timers.Decompose | include/utility/process_timer.hpp:90-100 | `H`, `M`, `S`, `mmm` of `measure` add back up to the elapsed milliseconds (truncated toward zero); for a non-negative elapsed time `M` and `S` lie in 0..59 and `mmm` in 0..999 |
| Timers.FieldsText | src/utility/process_timer.cpp:55-59 | for non-negative fields the text is `H:M:S.` followed by the milliseconds padded to three digits |
| Timers.MeasureText | src/utility/process_timer.cpp:40-62 | `measure()` succeeds for every non-negative elapsed time (the padding count `3 - length` can only wrap around for negative ones) |
| Timers.MeasureTextFields | include/utility/process_timer.hpp:96-102 | for a non-negative elapsed time the text is the four fields in decimal and the millisecond field is exactly three characters that read back as the milliseconds within the second |
| Timers.ProcessTimer.WithInterval | include/utility/process_timer.hpp:52-55 | the interval constructor stores the interval, an empty name and the clock reading |
| Timers.ProcessTimer.Named | src/utility/process_timer.cpp:16-19 | the name constructor stores the name, interval 0 and the clock reading |
| Timers.ProcessTimer.Restart | src/utility/process_timer.cpp:35-38 | `restart` moves only the base time |
| Timers.ProcessTimer.Measure | include/utility/process_timer.hpp:81-103 | `measure()` of the time since the base time, defined whenever the clock has not gone back |
| Timers.ProcessTimer.Destroy | src/utility/process_timer.cpp:21-33 | the destructor sleeps exactly when the interval is positive, for the interval minus the whole elapsed milliseconds; otherwise it reports the name and `measure()` |
| Inis.Lines | include/utility/ini.hpp:125-137 | the lines `getline` produces from the file text: none for an empty file, otherwise newline-free pieces that joined with newlines give the text back |
| Inis.LinesOfJoin | include/utility/ini.hpp:286-291 | text written as newline-joined, newline-free lines is read back as exactly those lines |
| Inis.IgnoreLine | src/utility/ini.cpp:34-47 | `is_ignore_line` is true exactly when the line is empty or some configured comment prefix starts it (`find` reports it at position 0) |
| Inis.HeaderErrors | include/utility/ini.hpp:143-157 | a line starting with '[' fails with "section not closed" exactly when it has no ']', and with "section is empty" exactly when the first ']' follows the '[' directly |
| Inis.HeaderName | src/utility/ini.cpp:69-85 | an accepted header names the non-empty text between the '[' and the first ']' |
| Inis.FieldErrors | include/utility/ini.hpp:160-176 | any other line fails with "field has no section" exactly when no section has been read, and with "no separator" exactly when a section has been read and the separator is missing; otherwise it is a field |
| Inis.FieldParts | src/utility/ini.cpp:95-108 | a field line holds the separator, and its name and value are split at the first separator |
| Inis.LookupIn | include/utility/ini.hpp:134-192 | a value found is non-empty and trimmed; an error carries the 1-based number of the line that caused it |
| Inis.LookupStep | src/utility/ini.cpp:60-116 | one line of the lookup: an error stops it with that line's number, a header changes the current section, the first field of the target section with the target name decides (an empty value reading as not found), anything else goes on with the next line |
| Inis.ReadLine | src/utility/ini.cpp:63-108 | the loop body classifies one trimmed line exactly as specified, including the four errors |
| Inis.TryGetField | include/utility/ini.hpp:123-193 | `try_get_field` returns what the first-match lookup over the file's lines gives: the trimmed value, not found (for no match or an empty value), or the parse error with its line number |
| Inis.Prepend | include/utility/ini.hpp:273 | lines written before a rewrite come before its output, and an error passes through unchanged |
| Inis.Advance | include/utility/ini.hpp:215-273 | every line read writes at least one line, and the current section afterwards is the header's name or stays as it was |
| Inis.PrependTwice | include/utility/ini.hpp:273 | writing two groups of lines in turn is writing them together |
| Inis.RewriteStep | include/utility/ini.hpp:209-274 | one turn of the `set_field` loop: a line that fails to parse ends the rewrite with its error and line number, any other line moves what it writes to the output |
| Inis.TerminatedAppend | include/utility/ini.hpp:273 | writing more lines, each followed by a newline, appends to what was written |
| Inis.TerminatedTail | include/utility/ini.hpp:276-284 | what the end of `set_field` writes is the missing lines, each followed by a newline |
| Inis.PopLastNewline | include/utility/ini.hpp:286-287 | popping the last character of the stream leaves the output lines joined by newlines |
| Inis.WriteLine | include/utility/ini.hpp:215-273 | one line of `set_field`: a matching field of the target section becomes `field<sep>value`; a header that leaves the target section while no field matched there is preceded by the field line; the section and mode are updated |
| Inis.AppendMissing | include/utility/ini.hpp:276-284 | after the loop, `[section]` and the field line are appended when no header named the section, the field line alone when the section had no such field, nothing otherwise |
| Inis.SetField | include/utility/ini.hpp:195-292 | `set_field` stores the rewritten lines joined by newlines, the final newline dropped, or fails with the first parse error and its line number |
| Inis.SetFieldDone | include/utility/ini.hpp:276-287 | the stream after the loop and the appended lines, with its last character popped, is the text the rewrite specifies |
| Inis.HeaderLineKind | include/utility/ini.hpp:278 | an appended `[section]` line reads back as a header naming the section |
| Inis.FieldLineTrimmed | include/utility/ini.hpp:268 | the written field line is unchanged by trimming |
| Inis.FieldLineKind | include/utility/ini.hpp:268 | the written field line reads back, inside a section, as the target field with the target value |
| Inis.TrimmedKind | include/utility/ini.hpp:212 | a line read back from written text, trimmed again, is classified as before |
| Inis.LookupCons | include/utility/ini.hpp:134-192 | a lookup reading a trimmed line stops at a matching field and otherwise goes on with the section that line leaves |
| Inis.LookupFirst | include/utility/ini.hpp:134-192 | the same step for the first line of the file, which is trimmed first |
| Inis.RewriteHead | include/utility/ini.hpp:209-274 | a successful rewrite of a non-empty file starts with what its first line writes |
| Inis.FieldFirstFound | include/utility/ini.hpp:184-187 | in the target section, a lookup meeting the written field line returns the written value |
| Inis.StepThenLookup | include/utility/ini.hpp:238-270 | from a state where the target has not been written yet, a lookup of the target in what one line writes followed by the rest finds the written value |
| Inis.RewriteThenLookup | include/utility/ini.hpp:195-292 | from such a state, looking the target up in the rewritten lines finds the written value, and the field line is among them |
| Inis.TailThenLookup | include/utility/ini.hpp:276-284 | the appended section and field lines make the lookup find the written value |
| Inis.TailKeepsOthers | include/utility/ini.hpp:276-284 | the appended lines hold no other field: a lookup of any other section and field in them finds nothing |
| Inis.FieldFirstSkipped | include/utility/ini.hpp:184-187 | a lookup of another field passes over the written field line |
| Inis.StepKeepsOthers | include/utility/ini.hpp:238-270 | for any other section or field, what one line writes is read by the lookup as the original line is |
| Inis.StepReplaced | include/utility/ini.hpp:266-270 | replacing a matching field line by the written one does not change the lookup of another field |
| Inis.StepInserted | include/utility/ini.hpp:240-244 | inserting the field line before a header does not change the lookup of another field |
| Inis.StepCopied | include/utility/ini.hpp:273 | a line copied unchanged is read as before |
| Inis.InsertedKeepsOthers | include/utility/ini.hpp:240-244 | a lookup of another field that meets the inserted field line followed by the header goes on as after the header alone |
| Inis.RewriteKeepsOthers | include/utility/ini.hpp:195-292 | a lookup of any other section or field gives the same result on the rewritten lines as on the original ones |
| Inis.RewriteKeepsStep | include/utility/ini.hpp:209-274 | the step of that induction: the first line, then the rest |
| Inis.AdvancePending | include/utility/ini.hpp:238-243 | the mode stays consistent with the current section: no match yet means outside the target section, a section match means inside it |
| Inis.LookupsAgree | include/utility/ini.hpp:134-192 | lookups that agree on the first line and on the rest agree on the whole |
| Inis.UnbrokenConcat | include/utility/ini.hpp:273 | newline-free lines stay newline-free when put together |
| Inis.TargetLinesFree | include/utility/ini.hpp:268-279 | the field line and the header written for a plain target hold no newline |
| Inis.AdvanceFree | include/utility/ini.hpp:238-273 | what one line writes holds no newline when the line and the field line hold none |
| Inis.TailFree | include/utility/ini.hpp:276-284 | the appended lines hold no newline |
| Inis.RewriteFree | include/utility/ini.hpp:195-292 | every rewritten line is newline-free, so the stored text splits back into them |
| Inis.ReadBackRewrite | include/utility/ini.hpp:286-291 | the text `set_field` stores is read back line for line as the rewritten lines, and the field line is among them |
| Inis.SetFieldThenLookup | include/utility/ini.hpp:195-292 | after a successful `set_field` of a plain target, `try_get_field` on the stored text finds the written value (not found when it was empty) |
| Inis.SetFieldKeepsOthers | include/utility/ini.hpp:195-292 | after a successful `set_field`, every other section and field reads back as before, errors included |
| Inis.ReadStrOf | include/utility/ini.hpp:368-374 | `read_str` fails exactly when the lookup fails, and otherwise gives the text found or the default |
| Inis.ReadBoolOf | src/utility/ini.cpp:137-154 | `read_bool` fails exactly when the lookup fails and gives the default when nothing is found |
| Inis.ReadIntOf | src/utility/ini.cpp:156-174 | `read_int` fails exactly when the lookup fails, gives the default when nothing is found, and otherwise gives the default or a 32-bit value |
| Inis.WriteStrThenReadStr | include/utility/ini.hpp:368-399 | after `write_str` of a plain value, `read_str` gives it back (the default for an empty value) |
| Inis.WriteBoolThenReadBool | include/utility/ini.hpp:312-380 | after `write_bool`, `read_bool` gives the written value back |
| Inis.WriteIntThenReadInt | src/utility/ini.cpp:156-212 | after `write_int` of a 32-bit value, `read_int` gives it back |
| Inis.Ini.CurrentSyntax | include/utility/ini.hpp:75-76 | the separator and the comment prefixes the object holds |
| Inis.Ini.constructor | src/utility/ini.cpp:121-123 | a new object reads its file with the separator '=' and the comment prefixes "#" and ";" |
| Inis.Ini.SetFieldSeparator | src/utility/ini.cpp:125-129 | `set_field_separator` changes the separator and nothing else |
| Inis.Ini.SetCommentPrefixList | src/utility/ini.cpp:131-135 | `set_comment_prefix_list` changes the comment prefixes and nothing else |
| Inis.Ini.ReadStr | src/utility/ini.cpp:193-199 | `read_str` on the object's file with its current settings |
| Inis.Ini.ReadBool | include/utility/ini.hpp:312-329 | `read_bool` on the object's file with its current settings |
| Inis.Ini.ReadInt | include/utility/ini.hpp:331-349 | `read_int` on the object's file with its current settings |
| Inis.Ini.WriteStr | src/utility/ini.cpp:221-224 | `write_str` replaces the file's text by the rewrite on success, leaves it unchanged on a parse error, and changes no setting |
| Inis.Ini.WriteBool | src/utility/ini.cpp:201-205 | `write_bool` writes `true` or `false` the same way |
| Inis.Ini.WriteInt | include/utility/ini.hpp:382-387 | `write_int` writes the decimal text of the value the same way |
| IniValues.DigitRunEnd | src/utility/ini.cpp:22 | the end of the run of digits of the base that starts at a position |
| IniValues.StrtolEnd | src/utility/ini.cpp:18-32 | where `strtol` leaves `endptr`, never past the end |
| IniValues.EmptyIsConvertible | src/utility/ini.cpp:18-24 | the empty text counts as convertible, because `endptr` then stays on the terminating NUL |
| IniValues.IntTextConvertible | include/utility/ini.hpp:92-98 | the decimal text of any integer is read by `strtol` in base 10 to its end, so it is convertible |
| IniValues.TrailingLetterNotConvertible | include/utility/ini.hpp:92-106 | text with a character that is no digit in any of the three bases is not convertible (`12xyz`) |
| IniValues.HexConvertible | include/utility/ini.hpp:102-104 | `0x1A` is convertible, by base 16 |
| IniValues.ToInt32 | src/utility/ini.cpp:167-168 | narrowing the `long` to the `int` result gives the 32-bit value congruent modulo 2^32, unchanged when it is already in range |
| IniValues.ReadIntText | include/utility/ini.hpp:331-349 | `read_int` on a found text gives the default or a 32-bit value |
| IniValues.LeadingIntOfDigitRun | include/utility/ini.hpp:342 | `stol` reads a run of digits as its value |
| IniValues.LeadingIntOfNegativeRun | include/utility/ini.hpp:342 | `stol` reads `-` followed by digits as the negated value |
| IniValues.LeadingIntOfIntText | include/utility/ini.hpp:342 | `stol` reads the decimal text of any integer back to it |
| IniValues.ReadIntOfWritten | src/utility/ini.cpp:156-212 | what `write_int` writes for a 32-bit value, `read_int` reads back |
| IniValues.HexReadsLeadingZero | src/utility/ini.cpp:162-168 | `0x1A` passes the convertibility test by base 16 but `stol` reads it in base 10, so `read_int` gives 0 |
| IniValues.ReadIntOfLeading | src/utility/ini.cpp:162-168 | for a convertible text whose leading value fits a `long`, `read_int` gives that value narrowed to `int` |
| IniValues.ReadDecimalRun | src/utility/ini.cpp:162-173 | a digit run is read as its value narrowed to `int` when it fits a `long`, and as the default when `stol` overflows |
| IniValues.DigitRunConvertible | src/utility/ini.cpp:18-24 | a digit run is convertible |
| IniValues.ReadIntOutOfRange | src/utility/ini.cpp:165-173 | a value outside the `long` range makes `stol` throw, so `read_int` gives the default |
| IniValues.ReadBoolText | src/utility/ini.cpp:143-153 | `read_bool` departs from the default only for a text that upper-cases to `TRUE` or `FALSE` |
| IniValues.BoolText | src/utility/ini.cpp:203 | `write_bool` writes `true` or `false`, which upper-case to `TRUE` and `FALSE` |
| IniValues.ReadBoolOfWritten | include/utility/ini.hpp:312-380 | what `write_bool` writes, `read_bool` reads back, whatever the default |
| IniValues.ReadBoolIgnoresCase | include/utility/ini.hpp:318-325 | case does not matter: `tRue` reads as true and `FaLsE` as false |
| TIniFiles.TIniFile.CurrentSyntax | include/builder_alternative/System.hpp:1110-1111 | the separator and the comment prefixes the object holds |
| TIniFiles.TIniFile.constructor | include/builder_alternative/System.hpp:1340-1345 | a new object reads its file with the separator '=' and the comment prefixes "#" and ";" |
| TIniFiles.TIniFile.SetFieldSep | include/builder_alternative/System.hpp:1347-1351 | `SetFieldSep` changes the separator and nothing else |
| TIniFiles.TIniFile.SetCommentPrefixes | include/builder_alternative/System.hpp:1352-1356 | `SetCommentPrefixes` changes the comment prefixes and nothing else |
| TIniFiles.TIniFile.ReadBool | include/builder_alternative/System.hpp:1358-1373 | `ReadBool` is the first-match lookup of `tryGetField` followed by the case-insensitive `TRUE`/`FALSE` reading, with the four parse errors |
| TIniFiles.TIniFile.ReadInteger | include/builder_alternative/System.hpp:1375-1393 | `ReadInteger` gives the default when nothing is found or the text is not convertible or `stol` throws, and otherwise the `long` value narrowed to `int` |
| TIniFiles.TIniFile.ReadString | include/builder_alternative/System.hpp:1395-1402 | `ReadString` gives the trimmed value found, or the default when the field is missing or empty |
| TIniFiles.TIniFile.WriteString | include/builder_alternative/System.hpp:1434-1437 | `WriteString` replaces the file's text by the `setField` rewrite (replace, insert before the next section, or append) on success, leaves it unchanged on a parse error, and changes no setting |
| TIniFiles.TIniFile.WriteBool | include/builder_alternative/System.hpp:1421-1425 | `WriteBool` writes `true` or `false` the same way |
| TIniFiles.TIniFile.WriteInteger | include/builder_alternative/System.hpp:1427-1432 | `WriteInteger` writes the decimal text of the value the same way |
| TIniFiles.WriteThenReadBool | include/builder_alternative/System.hpp:1358-1425 | on one `TIniFile`, a successful `WriteBool` of a plain section and name is read back by `ReadBool` as the value written |
| AnsiStrings.Span | include/builder_alternative/System.hpp:137-169 | the number of characters `substr`/`erase` take: the count when it fits, otherwise (a negative count turns into a huge `size_t`) everything after the position |
| AnsiStrings.SubStringOf | include/builder_alternative/System.hpp:169 | `SubString(p, n)` is `substr(p - 1, n)`: it succeeds exactly for `1 <= p <= length + 1` (otherwise `out_of_range`) and returns the slice of the text starting at index `p - 1` |
| AnsiStrings.DeleteOf | include/builder_alternative/System.hpp:135-139 | `Delete(p, n)` is `erase(p - 1, n)`: it succeeds exactly for `1 <= p <= length + 1`, keeps the first `p - 1` characters and shortens the text by what is erased |
| AnsiStrings.DeleteRemovesSubString | include/builder_alternative/System.hpp:135-169 | `Delete(p, n)` removes exactly what `SubString(p, n)` returns: the text is the kept prefix, that substring and the kept suffix |
| AnsiStrings.ToIntOf | include/builder_alternative/System.hpp:130 | `ToInt` fails exactly when `stol` throws (no digits after the optional sign, or a value outside `long`), and otherwise gives a 32-bit value |
| AnsiStrings.ToIntOfIntText | include/builder_alternative/System.hpp:130 | `ToInt` reads the decimal text of any `int` back to it |
| AnsiStrings.ToIntOfWord | include/builder_alternative/System.hpp:130 | `ToInt` of a text without digits throws `invalid_argument` |
| AnsiStrings.AnsiPosOf | include/builder_alternative/System.hpp:196-202 | `AnsiPos(target)` is 0 exactly when no character of the text occurs in `target`, and otherwise one plus the index of the first character that does |
| AnsiStrings.AnsiPosIsCharacterSearch | include/builder_alternative/System.hpp:200 | `AnsiPos` searches for a set of characters, not for the target text: "lo" is found at position 3 of "hello" |
| AnsiStrings.Equals | include/builder_alternative/System.hpp:246-248 | `==` between texts is true exactly when they are equal |
| AnsiStrings.CharEquals | include/builder_alternative/System.hpp:252 | `c == s` is true exactly when the text is the single character `c` |
| AnsiStrings.EqualsChar | include/builder_alternative/System.hpp:249 | `s == c`, corrected: the same test as `c == s` |
| AnsiStrings.EqualsCharAsWritten | include/builder_alternative/System.hpp:249 | as written `s == c` holds only for a run of decimal digits (the character's code, taken as non-negative: exact for ASCII, while a signed `char` of 0x80 or above would give a negative text), and never for the character itself when its code is 10 or more |
| AnsiStrings.CharComparisonAsymmetric | include/builder_alternative/System.hpp:249-252 | as written `AnsiString("a") == 'a'` is false while `'a' == AnsiString("a")` is true, and `AnsiString("97") == 'a'` is true |
| AnsiStrings.NotEquals | include/builder_alternative/System.hpp:253-259 | `!=` is the negation of `==` |
| AnsiStrings.LowerCaseAsWrittenUppercases | include/builder_alternative/System.hpp:109-114 | as written `LowerCase` applies `toupper`, so it equals `UpperCase` ("a" becomes "A") |
| AnsiStrings.AnsiString.constructor | include/builder_alternative/System.hpp:84-87 | the text is the string given |
| AnsiStrings.AnsiString.FromChar | include/builder_alternative/System.hpp:88 | the text is the one character given |
| AnsiStrings.AnsiString.Assign | include/builder_alternative/System.hpp:90-93 | assignment replaces the text |
| AnsiStrings.AnsiString.Append | include/builder_alternative/System.hpp:94-97 | `+=` appends to the text |
| AnsiStrings.AnsiString.At | include/builder_alternative/System.hpp:98 | `s[i]` is `at(i - 1)`: defined exactly for `1 <= i <= length`, where it is the character `SubString(i, 1)` holds |
| AnsiStrings.AnsiString.UpperCase | include/builder_alternative/System.hpp:102-107 | `UpperCase` keeps the length, leaves no small letter and changes nothing but small letters |
| AnsiStrings.AnsiString.LowerCase | include/builder_alternative/System.hpp:109-114 | `LowerCase`, corrected to `tolower`: it keeps the length, leaves no capital and changes nothing but capitals |
| AnsiStrings.LowerCaseAsWritten | include/builder_alternative/System.hpp:109-114 | as written `LowerCase` keeps the length and leaves no small letter |
| AnsiStrings.AnsiString.ToInt | include/builder_alternative/System.hpp:130 | `ToInt` of the text |
| AnsiStrings.AnsiString.Length | include/builder_alternative/System.hpp:132 | the length of the text |
| AnsiStrings.AnsiString.IsEmpty | include/builder_alternative/System.hpp:133 | true exactly when the length is 0 |
| AnsiStrings.AnsiString.Delete | include/builder_alternative/System.hpp:135-139 | `Delete` erases in place on success and leaves the text unchanged when it throws |
| AnsiStrings.AnsiString.TrimLeft | include/builder_alternative/System.hpp:152-161 | `TrimLeft` removes a whitespace prefix and nothing else, and the rest does not start with whitespace |
| AnsiStrings.AnsiString.TrimRight | include/builder_alternative/System.hpp:141-150 | `TrimRight` removes a whitespace suffix and nothing else, and the rest does not end with whitespace |
| AnsiStrings.AnsiString.Trim | include/builder_alternative/System.hpp:163-167 | `TrimRight` after `TrimLeft` is the same trim the INI readers use |
| AnsiStrings.AnsiString.SubString | include/builder_alternative/System.hpp:169 | `SubString` of the text |
| AnsiStrings.AnsiString.SplitString | include/builder_alternative/System.hpp:171-194 | `SplitString` gives no piece for "", the whole text for an empty separator, and otherwise the pieces between the separators found left to right |
| AnsiStrings.AnsiString.AnsiPos | include/builder_alternative/System.hpp:196-208 | `AnsiPos` and `Pos` of the text |
| AnsiStrings.UpperOfLower | include/builder_alternative/System.hpp:102-114 | with the corrected `LowerCase`, upper-casing after lower-casing is upper-casing |
| AnsiStrings.TrimLeftThenRight | include/builder_alternative/System.hpp:163-167 | trimming the left end first and the right end second gives the same text as trimming the right end first |
| AnsiStrings.SplitStringJoins | include/builder_alternative/System.hpp:171-194 | the pieces of a non-empty text joined with the separator give the text back |
| TDateTimes.ConvertAt | include/builder_alternative/System.hpp:350-367 | one step of `convert` at an occurrence of the token: the search then resumes at a position that leaves less text to search than before |
| TDateTimes.ConvertAtUnquoted | include/builder_alternative/System.hpp:362-367 | a token not preceded by a quote is replaced by the substitute, and the search resumes just past the substitute |
| TDateTimes.ConvertAtQuoted | include/builder_alternative/System.hpp:350-361 | a token between two equal quotes with text after them loses its quotes and is kept; the search resumes one character before its end, or as written two characters past it after single quotes |
| TDateTimes.ConvertAtPlain | include/builder_alternative/System.hpp:364-369 | a token not enclosed in matching quotes with text after them is replaced by the substitute and the search resumes after it |
| TDateTimes.Convert | include/builder_alternative/System.hpp:339-369 | the loop of `convert` (with the single-quote resume corrected) leaves the text the step-by-step specification gives |
| TDateTimes.ConvertStep | include/builder_alternative/System.hpp:344-369 | one turn of the `convert` loop keeps the conversion of the text from the search position equal to that of the original |
| TDateTimes.ConvertDone | include/builder_alternative/System.hpp:345-347 | once `find` reports `npos` the text is left as it is |
| TDateTimes.ConvertUnquotedFrom | include/builder_alternative/System.hpp:339-369 | on quote-free text `convert` from any position replaces every occurrence of the token after it, left to right, as `to_str` does |
| TDateTimes.SpliceFree | include/builder_alternative/System.hpp:362-367 | replacing a token by a quote-free text leaves the text quote-free |
| TDateTimes.ConvertUnquoted | include/builder_alternative/System.hpp:339-369 | on quote-free text `convert` is the plain replace-all of `to_str` |
| TDateTimes.QuotedFirst | include/builder_alternative/System.hpp:345 | in a text starting with a quoted token the first occurrence found is at index 1 |
| TDateTimes.QuotedStep | include/builder_alternative/System.hpp:350-361 | a leading quoted token loses its quotes and the search resumes past it (two characters further after single quotes as written) |
| TDateTimes.QuotedTokenKept | include/builder_alternative/System.hpp:350-361 | a token in single or double quotes followed by text is written once without quotes, and the rest is converted as usual |
| TDateTimes.DoubleQuotedTokenKept | include/builder_alternative/System.hpp:357-361 | the double-quote escape works as written |
| TDateTimes.SingleQuoteSkipsTwo | include/builder_alternative/System.hpp:350-355 | as written, the two characters after a single-quoted token are never converted |
| TDateTimes.ReplaceShort | include/builder_alternative/System.hpp:345-347 | a text shorter than the token is left as it is |
| TDateTimes.ReplaceWholeToken | include/builder_alternative/System.hpp:362-367 | the token alone becomes the substitute |
| TDateTimes.SingleQuotedThenToken | include/builder_alternative/System.hpp:350-355 | on `'mm'mm` the code as written leaves `mmmm`, the intended resume gives `mm` followed by the month |
| TDateTimes.QuotedThenTokenAsWritten | include/builder_alternative/System.hpp:355 | as written, `'mm'mm` converts to `mmmm`: the second, unquoted token is skipped |
| TDateTimes.QuotedThenTokenIntended | include/builder_alternative/System.hpp:354-360 | with the resume of the double-quote branch, `'mm'mm` converts to `mm` followed by the month |
| TDateTimes.ConvertEach | include/builder_alternative/System.hpp:432-439 | the eight `convert` calls of `FormatString`, in order, give the token-by-token conversion |
| TDateTimes.FormatString | include/builder_alternative/System.hpp:419-442 | `FormatString(format)` is the conversion of the format by the eight texts of the fields, with the single-quote resume corrected (see Findings); for a format without quotes it equals `DateTime::to_str` (`FormatOfUnquoted`) |
| TDateTimes.NumberFree | include/builder_alternative/System.hpp:432-439 | the decimal text of a number holds no quote |
| TDateTimes.PaddedFree | include/builder_alternative/System.hpp:330-337 | a zero-filled number holds no quote |
| TDateTimes.TextsFree | include/builder_alternative/System.hpp:432-439 | none of the eight substitutes holds a quote |
| TDateTimes.ReplaceAllFree | include/builder_alternative/System.hpp:362-367 | replacing tokens in quote-free text by quote-free substitutes leaves it quote-free |
| TDateTimes.TokenStep | include/builder_alternative/System.hpp:339-369 | one quote-free `convert` call is replace-all and keeps the text quote-free for the next call |
| TDateTimes.ConvertTokensUnquoted | include/builder_alternative/System.hpp:432-439 | on a quote-free format the eight conversions are the eight replacements of `to_str` |
| TDateTimes.FormatOfUnquoted | include/builder_alternative/System.hpp:419-442 | on a quote-free format `FormatString` writes the same text as `DateTime::to_str` |
| TDateTimes.CompareBy | include/builder_alternative/System.hpp:475-480 | `CompareTime` answers greater, less or equal exactly as the first measure is greater than, less than or equal to the second |
| TDateTimes.MilliSecondOfTheDayAsWritten | include/builder_alternative/System.hpp:417 | as written the measure is the corrected one with the microseconds in place of the milliseconds, so it differs whenever the two fields differ |
| TDateTimes.MilliSecondOfTheDay | include/builder_alternative/System.hpp:417 | corrected: for a valid clock, the milliseconds since midnight, whose thousands are the seconds of the day and whose remainder is the millisecond field |
| TDateTimes.CompareTimeAsWritten | include/builder_alternative/System.hpp:475-480 | as written, within one second the microseconds alone decide the order |
| TDateTimes.CompareTime | include/builder_alternative/System.hpp:475-480 | corrected: equal clocks compare equal and, on valid clocks, greater exactly when the left time of day is later |
| TDateTimes.MilliSecondsOrder | include/builder_alternative/System.hpp:417 | with the clock fields in range, a later time of day has more milliseconds since midnight |
| TDateTimes.CompareTimeOrdersClock | include/builder_alternative/System.hpp:417-480 | with the milliseconds corrected, `CompareTime` is greater, less or equal exactly when the left time of day is later, earlier or the same |
| TDateTimes.CompareTimeAsWrittenMisorders | include/builder_alternative/System.hpp:417-480 | as written (microseconds added in place of milliseconds) 00:00:00.001000 compares as earlier than 00:00:00.000005 |
| Paths.Fields | include/builder_alternative/System.hpp:604-620 | the texts between consecutive delimiters, at least one |
| Paths.NonEmpty | include/builder_alternative/System.hpp:611-612 | the non-empty texts kept in order, no more than there were |
| Paths.TokenizeSpec | include/builder_alternative/System.hpp:604-620 | `tokenize("")` gives one empty token |
| Paths.Tokenize | include/builder_alternative/System.hpp:604-620 | the loop of `tokenize` returns the non-empty runs between delimiters, in order (one empty token for "") |
| Paths.FindFirstOfSuffix | include/builder_alternative/System.hpp:617 | `find_first_of` from a position finds what a search of the suffix finds, shifted |
| Paths.FieldsFromNone | include/builder_alternative/System.hpp:604-620 | with no delimiter after a position, the rest is one field |
| Paths.FieldsFromAt | include/builder_alternative/System.hpp:604-620 | a delimiter found at `p` ends the field that starts at the search position |
| Paths.FieldsAt | include/builder_alternative/System.hpp:604-620 | the first delimiter ends the first field |
| Paths.FindFirstOfShift | include/builder_alternative/System.hpp:617 | a delimiter found from a position is found at the shifted index of the suffix |
| Paths.SuffixSlices | include/builder_alternative/System.hpp:612 | the `substr` the loop takes is the matching slice of the suffix |
| Paths.NonEmptyAppend | include/builder_alternative/System.hpp:611-612 | dropping empty texts distributes over concatenation |
| Paths.NonEmptyKeeps | include/builder_alternative/System.hpp:611-612 | dropping empty texts keeps a list of non-empty ones as it is |
| Paths.TurnLast | include/builder_alternative/System.hpp:609-619 | the last turn of the loop (no delimiter left) completes the tokens |
| Paths.TurnCut | include/builder_alternative/System.hpp:609-619 | a turn that finds a delimiter either ends the loop with the tokens complete or keeps the loop invariant |
| Paths.FieldsFree | include/builder_alternative/System.hpp:604-620 | no field holds a delimiter |
| Paths.NonEmptyFree | include/builder_alternative/System.hpp:611-612 | dropping empty texts keeps them free of delimiters |
| Paths.TokensClean | include/builder_alternative/System.hpp:604-620 | the tokens of a non-empty text are non-empty and hold no delimiter |
| Paths.JoinFields | include/builder_alternative/System.hpp:604-620 | the fields at one delimiter joined with it give the text back |
| Paths.FieldsOfJoin | include/builder_alternative/System.hpp:604-620 | texts free of delimiters joined with a delimiter split back into the same texts |
| Paths.TokenizeOfJoin | include/builder_alternative/System.hpp:604-620 | tokenizing a join gives back its non-empty parts |
| Paths.DoubleSlash | include/builder_alternative/System.hpp:604-620 | "a//b" has the two tokens "a" and "b" |
| Paths.StripLongPrefix | include/builder_alternative/System.hpp:827-834 | the `\\?\` prefix is removed exactly when the text starts with it |
| Paths.WindowsSet | include/builder_alternative/System.hpp:825-882 | `set` with the Windows type gives a Windows path, and a network path is always absolute |
| Paths.WindowsHead | include/builder_alternative/System.hpp:836-878 | of the four forms of the start of a Windows path, only "\\" and "UNC\" give a network path, and those are absolute |
| Paths.WindowsRead | include/builder_alternative/System.hpp:836-881 | the head's components then the tokens of the rest at '/' and '\'; a network path is absolute |
| Paths.SetSpec | include/builder_alternative/System.hpp:822-887 | `set` records the type; a POSIX path is absolute exactly when it starts with '/', keeps the network flag and holds the tokens at '/' |
| Paths.Root | include/builder_alternative/System.hpp:779-805 | `str` writes no root for a relative path and "/" for an absolute POSIX path |
| Paths.FilenameOf | include/builder_alternative/System.hpp:732-738 | `filename()` is "" without components and the last component otherwise |
| Paths.FindLast | include/builder_alternative/System.hpp:726 | `find_last_of` gives the last index holding the character, or none when no index holds it |
| Paths.ExtensionOf | include/builder_alternative/System.hpp:723-730 | `extension()` holds no '.', is "" when the file name has none, and is otherwise what follows the file name's last '.' |
| Paths.ParentOf | include/builder_alternative/System.hpp:740-758 | `parent_path()` is native, keeps both flags and drops the last component; without components it stays empty when absolute and is ".." when relative |
| Paths.DivOf | include/builder_alternative/System.hpp:760-773 | `operator/` fails with its message exactly when the right path is absolute or of the other type, and otherwise appends the right components and keeps the left type and flags |
| Paths.Equals | include/builder_alternative/System.hpp:997 | `operator==` is true exactly when the components agree |
| Paths.EmittedStep | include/builder_alternative/System.hpp:807-816 | one turn of the component loop of `str` adds the component and, unless it is the last, the separator |
| Paths.TPath.constructor | include/builder_alternative/System.hpp:624-626 | `TPath()` is a relative native path without components |
| Paths.TPath.Copy | include/builder_alternative/System.hpp:628-630 | the copy holds the same fields |
| Paths.TPath.FromString | include/builder_alternative/System.hpp:636-642 | `TPath(string)` is `set(string)` on a path that is not a network path |
| Paths.TPath.Set | include/builder_alternative/System.hpp:822-887 | `set` leaves the path `SetSpec` describes |
| Paths.TPath.SetWindows | include/builder_alternative/System.hpp:825-882 | the Windows branch of `set` leaves the path `WindowsSet` describes |
| Paths.TPath.Assign | include/builder_alternative/System.hpp:890-897 | assignment copies all four fields |
| Paths.TPath.Str | include/builder_alternative/System.hpp:775-820 | `str(type)` writes the root, then the components separated by the separator of `type` |
| Paths.TPath.CountLength | include/builder_alternative/System.hpp:785-788 | the length count of `str`: each component and one more |
| Paths.TPath.Emit | include/builder_alternative/System.hpp:807-816 | the component loop writes the components joined by the separator |
| Paths.TPath.ParentPath | include/builder_alternative/System.hpp:740-758 | `parent_path()` returns a new path holding `ParentOf` of this one |
| Paths.TPath.Div | include/builder_alternative/System.hpp:760-773 | `operator/` returns a new path holding the appended components, or the exception `DivOf` names |
| Paths.PosixRoundTrip | include/builder_alternative/System.hpp:775-887 | a POSIX path of non-empty, '/'-free components (and not the empty relative path) is read back by `set` from its `str` |
| Paths.JoinHead | include/builder_alternative/System.hpp:807-816 | a join starts with its first part |
| Paths.EmptyStringHasOneComponent | include/builder_alternative/System.hpp:822-887 | `TPath("")` is relative and holds one (empty) component, so it is not `empty()` |
| Paths.RootIgnoredByEquals | include/builder_alternative/System.hpp:997 | "/x" and "x" compare equal though only the first is absolute |
| Paths.ParentUndoesDiv | include/builder_alternative/System.hpp:740-773 | `parent_path` of `p / q`, with `q` one component, has the components of `p`, and its file name is that component |
| Paths.FilenameOfDiv | include/builder_alternative/System.hpp:732-773 | the file name of `p / q` is that of `q` when `q` has components |
| Paths.DivAssociative | include/builder_alternative/System.hpp:760-773 | `(p / q) / r` and `p / (q / r)` both succeed and agree when `p / q` and `q / r` succeed |
| Paths.ParentOfWindowsPath | include/builder_alternative/System.hpp:740-773 | the parent of a Windows path is native, so joining it with a Windows path throws though joining the path itself does not |
| Paths.DriveRead | include/builder_alternative/System.hpp:867-875 | a path starting with a drive and a separator is absolute, not a network path, and has the drive as first component |
| Paths.DriveParse | include/builder_alternative/System.hpp:867-881 | a drive followed by clean components joined with '\' reads back to exactly those components |
| Paths.WindowsDriveRoundTrip | include/builder_alternative/System.hpp:775-881 | an absolute local Windows path with a drive is read back by `set` from its `str` (with or without the long prefix) |
| Paths.ShortNetworkRead | include/builder_alternative/System.hpp:846-857 | "\\" followed by clean components is an absolute network path exactly when there are two components or more |
| Paths.NoLongPrefix | include/builder_alternative/System.hpp:827-834 | "\\" before a component other than "?" is not the long prefix |
| Paths.NetworkRead | include/builder_alternative/System.hpp:846-857 | after "\\" the path is a network path exactly when a separator follows |
| Paths.JoinedHasDelim | include/builder_alternative/System.hpp:846-857 | components joined with '\' hold a separator exactly when there are two or more |
| Paths.NetworkRoundTrip | include/builder_alternative/System.hpp:775-881 | an absolute network path of two clean components or more is read back by `set` from its `str`, short or long |
| Paths.LongNetworkRead | include/builder_alternative/System.hpp:827-866 | `\\?\UNC\` followed by clean components reads as an absolute network path of those components |
| Paths.ShortNetworkSingleIsRelative | include/builder_alternative/System.hpp:795-857 | a short network path of one component does not round-trip: "\\x" is read back as the relative path "x" |
| Logging.RenderableTail | include/utility/logger.hpp:34-59 | the recursion of `add` passes on only vectors that have an element |
| Logging.Render | include/utility/logger.hpp:31-47 | a scalar is written as its text; a vector between "[" and "]" |
| Logging.Renders | include/utility/logger.hpp:34-36 | one text per argument, in order |
| Logging.AddTextIsJoin | include/utility/logger.hpp:30-59 | `add(v1, ..., vn)` writes the arguments joined by the separator, none after the last |
| Logging.AddLineOfScalars | include/utility/logger.hpp:111-124 | with scalars only, `add_line` writes what `add` writes and then one line break |
| Logging.VectorEndsLine | include/utility/logger.hpp:72-82 | a vector in `add_line` is followed by the line break, not the separator |
| Logging.AddLineEndsWithNewLine | include/utility/logger.hpp:61-124 | whatever the arguments, `add_line` ends with the line break |
| Logging.Logger.constructor | include/utility/logger.hpp:26-28 | a new logger has an empty buffer and the given separator and line break |
| Logging.Logger.Default | include/utility/logger.hpp:26-28 | `Logger()` with the default arguments: an empty buffer, a space as separator and "\n" as line break |
| Logging.Logger.GetBuffer | include/utility/logger.hpp:141-142 | `get_buffer()` is the text accumulated since construction or the last `flush` |
| Logging.Logger.RenderArg | include/utility/logger.hpp:39-47 | the loop that builds a vector's text (each element and a space, the last space popped) gives `Render` |
| Logging.Logger.Add | include/utility/logger.hpp:30-59 | `add` appends the arguments joined by the separator and changes nothing else |
| Logging.Logger.AddLine | include/utility/logger.hpp:61-124 | `add_line` appends the arguments, each vector and the last followed by the line break and each other scalar by the separator, and changes nothing else |
| Logging.Logger.Endl | include/utility/logger.hpp:108-109 | `endl` appends one line break |
| Logging.Logger.Flush | include/utility/logger.hpp:105-106 | `flush` empties the buffer, so `size()` is 0 |
| Logging.Logger.SetSeparator | include/utility/logger.hpp:126-130 | only the separator changes |
| Logging.Logger.SetNewLine | include/utility/logger.hpp:132-136 | only the line break changes |
| Logging.Logger.Size | include/utility/logger.hpp:138-139 | `size()` is the length of `get_buffer()` |
| Enumerating.Enumerate.constructor | include/enumerate.hpp:19-24 | the counter starts at 0 at the first element |
| Enumerating.Enumerate.NotAtEnd | include/enumerate.hpp:29-32 | `operator!=` ignores its operand and is true exactly before the end |
| Enumerating.Enumerate.Next | include/enumerate.hpp:34-38 | `operator++` advances the position and the counter together, so the counter stays the index |
| Enumerating.Enumerate.Current | include/enumerate.hpp:40-43 | `operator*` is the index of the current element paired with it |
| Enumerating.Visit | include/utility/pythonian/enumerate.hpp:20-34 | a range-for over `enumerate(items)` visits every element once, in order, paired with its index |
| Crc32.CheckValue | include/utility/shared_memory.hpp:127-202 | the hash of "123456789" is 0x0376E6E7, the check value of CRC-32/MPEG-2 |
| Crc32.StepsEight | include/utility/shared_memory.hpp:200 | eight steps of the bitwise division, written out |
| Crc32.Step8Table | include/utility/shared_memory.hpp:200 | by linearity, the register shifted by a byte XOR the remainder of its top byte XOR the input byte is eight division steps on the register with the byte mixed in |
| Crc32.TableStep | include/utility/shared_memory.hpp:200 | one table step with the bitwise remainder feeds one byte into the register |
| Crc32.TableAtIsPolynomial | include/utility/shared_memory.hpp:129-197 | every one of the 256 entries of `CRC32_TABLE` is the remainder of its index for the polynomial 0x04C11DB7 |
| Crc32.MakeHash | include/utility/shared_memory.hpp:127-202 | the table-driven loop of `make_hash`, started at 0xFFFFFFFF, computes the bitwise CRC of the name |
| Crc32.CrcSnoc | include/utility/shared_memory.hpp:199-200 | appending a byte to the name feeds it into the register |
| Crc32.TableLoopStep | include/utility/shared_memory.hpp:200 | one iteration of the loop of `make_hash` feeds one byte into the register |
| Crc32.TableIndexStep | include/utility/shared_memory.hpp:200 | the same, with the table index named |
| SharedMemories.KeyOf | include/utility/shared_memory.hpp:210 | the hash read as a `key_t` is a 32-bit signed value, and it is `IPC_PRIVATE` exactly when the hash is 0 |
| SharedMemories.Zeros | include/utility/shared_memory.hpp:303-304 | `n` zero bytes |
| SharedMemories.Registry.constructor | include/utility/shared_memory.hpp:255-307 | the IPC tables start empty, with the given limits |
| SharedMemories.Registry.ShmFind | include/utility/shared_memory.hpp:261 | `shmget(key, 0, 0)` finds the segment registered under a key, or gives -1 |
| SharedMemories.Registry.ShmCreate | include/utility/shared_memory.hpp:265 | the exclusive `shmget` fails for a taken key, a size outside [1, SHMMAX] or a full table, and otherwise makes a zeroed segment under the key |
| SharedMemories.Registry.ShmAttach | include/utility/shared_memory.hpp:273 | `shmat` adds one attachment and changes nothing else |
| SharedMemories.Registry.ShmDetach | include/utility/shared_memory.hpp:312 | `shmdt` removes one attachment and changes nothing else |
| SharedMemories.Registry.ShmWrite | include/utility/shared_memory.hpp:304-344 | a `memset`/`memcpy` into the segment replaces its first bytes and keeps the rest |
| SharedMemories.Registry.ShmRemove | include/utility/shared_memory.hpp:317 | `IPC_RMID` removes the segment and every key naming it |
| SharedMemories.Registry.SemFind | include/utility/shared_memory.hpp:211 | `semget(key, 1, 0660)` finds the set registered under a key, or gives -1; for `IPC_PRIVATE` it makes a new set |
| SharedMemories.Registry.SemCreate | include/utility/shared_memory.hpp:215 | the exclusive `semget` fails for a taken key or a full table, and otherwise makes a set with a zero counter under the key |
| SharedMemories.Registry.NewSemaphore | include/utility/shared_memory.hpp:211-215 | a new unregistered set with a zero counter, or -1 when the table is full |
| SharedMemories.Registry.SemSetOne | include/utility/shared_memory.hpp:226-234 | `semctl(SETVAL, 1)` sets the counter of an existing set to 1 and changes nothing else |
| SharedMemories.Registry.SemOp | include/utility/shared_memory.hpp:393-421 | a `semop` changes the counter exactly when it succeeds, by the requested amount |
| SharedMemories.Registry.SemRemove | include/utility/shared_memory.hpp:318 | `IPC_RMID` removes the set and every key naming it |
| SharedMemories.SemOpResult | include/utility/shared_memory.hpp:384-421 | a `semop` fails as invalid exactly on an unknown set, and succeeds only where the counter stays within [0, SEMVMX] |
| SharedMemories.MutexName | include/utility/shared_memory.hpp:305 | the mutex name is the argument when it is not null, and otherwise the channel name followed by "_MTX" |
| SharedMemories.DefaultMutexShared | include/utility/shared_memory.hpp:255-305 | with the default `mutex_name` "" every channel gets the mutex name "", whose key is -1 |
| SharedMemories.IntendedMutexDistinct | include/utility/shared_memory.hpp:305 | with a null `mutex_name`, distinct channel names give distinct mutex names |
| SharedMemories.NameKey | include/utility/shared_memory.hpp:210 | the key of a name is `IPC_PRIVATE` exactly when its hash is 0 |
| SharedMemories.SharedMemory.Attached | include/utility/shared_memory.hpp:255-256 | a channel holding the handles and size given, attached |
| SharedMemories.SharedMemory.Create | include/utility/shared_memory.hpp:255-307 | the constructor opens or creates the segment of the hashed channel name and then the mutex of the hashed mutex name; a failed `shmget` throws before any change, a failed `semget` throws with the segment attached; a channel that created its segment is in bounds, one that attached an existing segment is in bounds exactly when its size fits that segment |
| SharedMemories.SharedMemory.OpenChannel | include/utility/shared_memory.hpp:258-307 | the constructor once both names are keys, with the same outcomes and the same in-bounds facts |
| SharedMemories.SharedMemory.OpenSegment | include/utility/shared_memory.hpp:258-304 | an existing segment is attached whatever its size; otherwise a new one is created, attached and zeroed; -1 when `shmget` fails |
| SharedMemories.SharedMemory.CreateMutex | include/utility/shared_memory.hpp:206-251 | `create_mutex` opens the set of the hashed name, or creates it with its counter at 1 |
| SharedMemories.SharedMemory.OpenMutex | include/utility/shared_memory.hpp:209-235 | an existing set is used as it is; only a set this call created is set to 1; -1 when `semget` fails |
| SharedMemories.SharedMemory.WaitForSingleObject | include/utility/shared_memory.hpp:379-404 | the outcome is `WaitResult` of the counters before the call, and only an acquired lock decrements the counter |
| SharedMemories.SharedMemory.ReleaseMutex | include/utility/shared_memory.hpp:414-426 | `release_mutex` increments the counter, and fails (throws) exactly for an unknown set or one at SEMVMX |
| SharedMemories.SharedMemory.TryWrite | include/utility/shared_memory.hpp:338-347 | with the lock and a copy that fits, the first `buffer_size_` bytes of the data replace those of the segment and the lock is given back; with the lock and a copy past the segment or the object, `overran` with the lock held and nothing else changed; without the lock nothing changes |
| SharedMemories.SharedMemory.TryRead | include/utility/shared_memory.hpp:349-357 | with the lock and a copy that fits, the first `buffer_size_` bytes of the caller's object become those of the segment and the lock is given back; with the lock and a copy that does not fit, `overran` with the lock held and the object unchanged; without the lock the object is unchanged; the segment is unchanged either way |
| SharedMemories.SharedMemory.Close | include/utility/shared_memory.hpp:309-320 | the destructor detaches, and exactly when no attachment is left removes the segment and the mutex together with every key naming them; otherwise only the attachment count drops; ids, handles and size are kept |
| SharedMemories.LargerChannelOverruns | include/utility/shared_memory.hpp:258-280 | a second channel asking for a larger size attaches to the existing segment all the same and is not in bounds, while the creating channel is |
| SharedMemories.WaitResult | include/utility/shared_memory.hpp:379-404 | the lock is acquired exactly when the counter is positive, a fault exactly for an unknown set, a timeout only with a positive timeout and a clock reading past the deadline |
| SharedMemories.OpenSharing | include/utility/shared_memory.hpp:255-307 | two channels opened with the same mutex name lock the same set |
| SharedMemories.OpenSeparate | include/utility/shared_memory.hpp:255-307 | two channels opened with distinct mutex names lock distinct sets, and a new one starts unlocked |
| SharedMemories.DefaultMutexAsWritten | include/utility/shared_memory.hpp:255-399 | with the default `mutex_name`, closing the only user of one channel removes the mutex the other channel shares, whose next wait throws |
| SharedMemories.DefaultMutexIntended | include/utility/shared_memory.hpp:305-393 | with distinct mutex names, closing one channel leaves the other's lock usable: its next wait acquires it |
| DataFrames.Fields | src/utility/pythonian/data_frame.cpp:14-22 | `split("")` has no field |
| DataFrames.FieldsOfPlain | src/utility/pythonian/data_frame.cpp:14-22 | a non-empty text without the separator is one field |
| DataFrames.Split | src/utility/pythonian/data_frame.cpp:14-22 | the `getline` loop returns the pieces between separators, without a trailing empty piece |
| DataFrames.Concat | src/utility/pythonian/data_frame.cpp:5-12 | each field followed by the separator, the last separator popped, is the fields joined by the separator |
| DataFrames.FieldsOfJoin | src/utility/pythonian/data_frame.cpp:5-22 | `split` undoes `concat` when no field holds the separator and the last is not empty |
| DataFrames.FieldsArePieces | src/utility/pythonian/data_frame.cpp:14-22 | when the last piece is not empty, the fields are all the pieces |
| DataFrames.PiecesOfRow | src/utility/pythonian/data_frame.cpp:5-22 | the pieces of a joined row are the row when no field holds the separator |
| DataFrames.LastPieceEmpty | src/utility/pythonian/data_frame.cpp:14-22 | the last piece is empty only when the text ends with the separator |
| DataFrames.JoinOfFields | src/utility/pythonian/data_frame.cpp:5-22 | `concat` undoes `split` on a text that does not end with the separator |
| DataFrames.TrailingFieldDropped | src/utility/pythonian/data_frame.cpp:14-22 | a separator at the end adds no field |
| DataFrames.FieldsDropLast | src/utility/pythonian/data_frame.cpp:14-22 | when the last piece is empty the fields are the other pieces |
| DataFrames.Numbered | src/utility/pythonian/data_frame.cpp:50-52 | without a header line the column names are "0", "1", ... as decimal texts |
| DataFrames.ReadCsvOf | src/utility/pythonian/data_frame.cpp:34-66 | `read_csv` fails only for a row of the wrong width; its frame has one row per line after the first, each as wide as the header |
| DataFrames.RowsOf | src/utility/pythonian/data_frame.cpp:55-61 | row `i` is the split of line `i + 1` |
| DataFrames.ReadCsvWithoutHeader | src/utility/pythonian/data_frame.cpp:44-61 | without a header line the columns are numbered as many as the first line has fields, and that line is not data |
| DataFrames.ReadCsvWithHeader | src/utility/pythonian/data_frame.cpp:44-49 | with a header line the header is the split of the first line |
| DataFrames.Project | src/utility/pythonian/data_frame.cpp:136-138 | the cells at the indices, in the order of the indices |
| DataFrames.ProjectRows | src/utility/pythonian/data_frame.cpp:134-140 | each row projected, one result row per row |
| DataFrames.IndicesOf | src/utility/pythonian/data_frame.cpp:119-126 | each name's index is that of the first column of the name |
| DataFrames.ColumnOf | src/utility/pythonian/data_frame.cpp:94-114 | `df[column]` fails exactly for a name not in the header; otherwise a one-column frame with one cell per row |
| DataFrames.ColumnCells | src/utility/pythonian/data_frame.cpp:105-110 | each cell of the selected column is the row's cell under the first column of that name |
| DataFrames.ColumnsOf | src/utility/pythonian/data_frame.cpp:116-144 | `df[columns]` fails exactly when some name is not in the header; otherwise the header is the names asked for and cell k of each row is that row's cell under the first column named `columns[k]` |
| DataFrames.ColumnsOfOne | src/utility/pythonian/data_frame.cpp:94-144 | selecting a one-name list is selecting that column |
| DataFrames.RowOf | src/utility/pythonian/data_frame.cpp:146-156 | `df[i]` succeeds exactly for `-rows <= i < rows`, giving that one row under the same header |
| DataFrames.RowFromEnd | src/utility/pythonian/data_frame.cpp:149 | a negative index counts from the end: `-k` is row `rows - k` |
| DataFrames.RangeOf | src/utility/pythonian/data_frame.cpp:158-175 | `df[{first, second}]` succeeds exactly when both normalised ends are row indices and the first is not after the second, giving the rows from the first up to but not including the second |
| DataFrames.RangeMissesLastRow | src/utility/pythonian/data_frame.cpp:164-171 | a range never reaches the last row: it has fewer rows than the frame |
| DataFrames.RenameOf | src/utility/pythonian/data_frame.cpp:190-196 | `rename` fails exactly when the sizes differ; otherwise only the header changes |
| DataFrames.DataFrame.constructor | src/utility/pythonian/data_frame.cpp:24-26 | the frame holds the header and data given |
| DataFrames.DataFrame.Assign | src/utility/pythonian/data_frame.cpp:28-32 | assignment copies both fields |
| DataFrames.DataFrame.ReadCsv | src/utility/pythonian/data_frame.cpp:34-66 | `read_csv` builds the frame `ReadCsvOf` describes, or throws when it fails |
| DataFrames.DataFrame.ReadRows | src/utility/pythonian/data_frame.cpp:55-61 | the row loop succeeds exactly when every row has the header's width, and then gives the rows |
| DataFrames.DataFrame.ReadHeader | src/utility/pythonian/data_frame.cpp:44-52 | the header from the first line |
| DataFrames.DataFrame.Column | src/utility/pythonian/data_frame.cpp:94-114 | `operator[](column)` returns a new frame holding `ColumnOf`, or throws |
| DataFrames.DataFrame.Columns | src/utility/pythonian/data_frame.cpp:116-181 | `operator[](columns)` returns a new frame holding `ColumnsOf`, or throws |
| DataFrames.DataFrame.ProjectRow | src/utility/pythonian/data_frame.cpp:136-139 | the inner loop builds the projected row |
| DataFrames.DataFrame.Row | src/utility/pythonian/data_frame.cpp:146-156 | `operator[](row)` returns a new frame holding `RowOf`, or throws |
| DataFrames.DataFrame.Range | src/utility/pythonian/data_frame.cpp:158-175 | `operator[](range)` returns a new frame holding `RangeOf`, or throws |
| DataFrames.DataFrame.Rename | src/utility/pythonian/data_frame.cpp:183-196 | `rename` replaces the header when the sizes agree and changes nothing when it throws |

## Left out

- File, console and network I/O: the `ifstream`/`ofstream` handling of `Ini`, `TIniFile` and `read_csv` (the file is its text), `to_csv`, `show`, `describe`, `Logger::print` and `Logger::save`, the socket classes and `TDirectory`.
- The filesystem calls of `TPath` (`make_absolute`, `exists`, `file_size`, `is_directory`, `is_file`, `remove_file`, `resize_file`, `getcwd`, `create_directory`); the model stands for the POSIX build, where the native type is `posixPath`.
- Calendar conversions through the C time functions, which depend on the time zone and the OS: `DateTime(time_point)`, `to_time_point`, the date `add` and comparisons, `get_epoch`, `epoch_to_iso`, `iso_to_epoch`, the string forms of `add`/`diff`, and `TDateTime(time_point)`, `ToTimePoint` and the `Inc*` functions.
- Floating point: `read_double`/`write_double`, `TIniFile::ReadFloat`, `AnsiString::ToFloat`, the angle and knot conversions and the three-argument `range` of `core.hpp`, and `DataFrame::to_vector`.
- Wide strings: `AnsiString::wstr`, the `std::wstring` constructors and assignments of `AnsiString` and `TPath`, and every `MultiByteToWideChar`/`WideCharToMultiByte` conversion.
- `snprintf` formatting: `AnsiString::sprintf` and `Logger::format`.
- The `AnsiString` `operator+` overloads (include/builder_alternative/System.hpp:260-266) call themselves with no base case and never return.
- Console colours and the clock reads and `sleep_for` of the timers; the elapsed time and the clock readings are parameters.
- The Windows branch of the shared-memory channel, and real concurrency: a `semop` that would block is reported as `Pending`, and no other process changes the registry between two calls. `shmat` failing after a successful `shmget` is not modelled.
- Iterator lifetime and aliasing in `Enumerate`: the adapter walks a copied sequence by index.
- `Ini::load_all`, a stub returning an empty map; `DataFrame::data()`, which is the `data` field of the class.
- Core.Range: requires `end >= 0`; for a negative end the source's `std::vector` of that size throws `length_error` or aborts.
- Core.Concat: requires a non-empty list or an empty separator; otherwise `pop_back` on an empty string is undefined behaviour.
- DataFrames.Concat: requires a non-empty row, for the same reason.
- Logging.Logger.Add: requires every vector argument to have an element; an empty vector makes `pop_back` run on an empty string, which is undefined.
- Logging.Logger.AddLine: the same requirement on vector arguments.
- TIniFiles.TIniFile.ReadInteger: the `double` default of the source is taken as an `int`, the value the function returns in its place.
- EpochTime.Diff: the `invalid unit` throw of `add`, `diff` and `measure` is not modelled, since the four units are all the enumeration holds.
- EpochTime.Add: does not model overflow of the 64-bit millisecond count.
- SharedMemories.SharedMemory.TryWrite / TryRead: a `memcpy` of `buffer_size_` bytes past the end of the segment (a channel attached to an existing, smaller segment, as `LargerChannelOverruns` shows) or of the caller's object is undefined behaviour; the model reports it as `overran`, keeps the lock held and the segment and object unchanged, and does not model what the stray copy overwrites.

## Findings

| source | as written | input that shows it | evidently intended | confidence | as-written member | corrected member |
|---|---|---|---|---|---|---|
| include/utility/shared_memory.hpp:53 | the default `mutex_name` is `""`, which is not a null pointer (line 255 repeats the default; line 305 tests it against null), so every channel opened with the default locks the semaphore named "" (key -1), and `shmem_name + "_MTX"` is never used by default | open channels "a" and "b" with the default; destroying the only user of "a" removes the shared semaphore, and the next `wait_for_single_object` on "b" throws | a null default, so that each channel locks its own "<name>_MTX" | high, not executed | SharedMemories.DefaultMutexAsWritten | SharedMemories.DefaultMutexIntended |
| src/utility/date_time.cpp:85 | `mon = day = 1` is followed by `day = hour = ... = 0`, so a date without a `dd` token gets day 0 | `from_str("2020", "yyyy")` gives 2020-01-00 | day 1, so that every result is a valid date | high, not executed | DateTimes.FromStrAsWrittenDayZero | DateTimes.FromStrValid |
| include/builder_alternative/System.hpp:249 | `AnsiString == char` compares the text with `std::to_string(rhs)`, the character's decimal code | `AnsiString("a") == 'a'` is false while `'a' == AnsiString("a")` is true, and `AnsiString("97") == 'a'` is true | compare with the one-character string, as `char == AnsiString` does | high, not executed | AnsiStrings.CharComparisonAsymmetric | AnsiStrings.EqualsChar |
| include/builder_alternative/System.hpp:109-114 | `LowerCase` applies `toupper` | `AnsiString("a").LowerCase()` is "A" | `tolower` | high, not executed | AnsiStrings.LowerCaseAsWrittenUppercases | AnsiStrings.AnsiString.LowerCase |
| include/builder_alternative/System.hpp:417 | `MilliSecondOfTheDay` adds `MicroSecondOf()` where the milliseconds belong, so `CompareTime` orders by microseconds | 00:00:00.001000 compares as earlier than 00:00:00.000005 | add `MilliSecondOf()` | high, not executed | TDateTimes.CompareTimeAsWrittenMisorders | TDateTimes.CompareTimeOrdersClock |
| include/builder_alternative/System.hpp:355 | after removing the two quotes around a single-quoted token, the search resumes at `pos + fmtSize + 1`, two characters past the token | `FormatString("'mm'mm")` leaves "mmmm": the unquoted month token is skipped | resume at `pos + fmtSize - 1`, as the double-quote branch does | medium, not executed | TDateTimes.QuotedThenTokenAsWritten | TDateTimes.QuotedThenTokenIntended |
