# tinyrlibc in Dafny

This project models tinyrlibc, a small C library written in Rust for embedded targets. It covers:

- the string and memory primitives of ISO/IEC 9899:1999 section 7.21:
  - `strlen`, `strcmp`, `strncmp`, `strcpy`, `strncpy`, `strcat`
  - `strchr`, `strrchr`, `strstr`, `strspn`, `strcspn`, `memchr`
  - the POSIX `strncasecmp`
- the ctype helpers `isspace` and `isdigit`, and `abs`;
- the `CStringIter` iterator;
- the integer/text conversions:
  - `itoa`/`utoa`
  - `strtol`/`atoi`
  - the BSD `strtoul`
  - the `vsnprintf` formatter, written in C;
- the comb sort behind `qsort` and `qsort_r`;
- the two pseudo-random generators:
  - the GNU additive-feedback `rand`/`srand`
  - the ISO example LCG behind `rand_r`.

One Dafny module models each source file.

**Representation.**
- C strings are `seq<int>` of bytes in 0..255 that contain a NUL.
- Buffers the code writes are `array<int>`.
- A returned pointer is an `Option<nat>` index, with `None` for null.
- `CChar` is `u8`. Where the code widens `core::ffi::c_char` (in `strchr`, `strrchr` and `strncmp`), the signedness of `c_char` is a `signedChar` parameter.

**How each function is modelled.**
- A loop in the source becomes a Dafny `method` with its loop invariants.
- Each method is proved equal to a reference function, and the properties the code promises are proved as lemmas about that function.
- `CStringIter`, `GnuRand` and the `srand`/`rand` state are classes. Their methods update the fields in place.
- `qsort_r` sorts the byte array in place by swapping `width`-byte elements, exactly as the code does.

## Model

| member | source | states |
|---|---|---|
| Abs.Abs | src/abs.rs:9-11 | for `INT_MIN < i`, the result is `i` when `i >= 0` and `-i` otherwise, so it always lies in 0..INT_MAX |
| Abs.Examples | src/abs.rs:17-30 | -2 gives 2, 3 gives 3 and 0 gives 0 |
| Isdigit.Isdigit | src/isdigit.rs:9-11 | the result is 0 or 1, and it is 1 exactly for the bytes '0'..'9' |
| Isdigit.Examples | src/isdigit.rs:16-30 | all ten digits give 1, and 'a'..'j' give 0 |
| Isspace.Isspace | src/isspace.rs:8-17 | the result is 0 or 1, and it is 1 exactly for space, \t, \n, \v, \f and \r |
| Isspace.WhitespaceRange | src/isspace.rs:8-17 | whitespace is exactly 0x20 or the range 0x09..0x0d |
| Isspace.Examples | src/isspace.rs:21-67 | the six whitespace bytes give 1, and '0' and 'a' give 0 |
| CStr.Len | src/strlen.rs:8-15 | the index of the first NUL: below it every byte is non-zero |
| CStr.LenUnique | src/strlen.rs:8-15 | any index holding a NUL with no NUL before it is the length |
| CStr.Widen | src/strncmp.rs:17 | widening a byte from `c_char` to `c_int` gives the byte itself when `c_char` is unsigned and a value in -128..127 when it is signed; it is 0 exactly for the byte 0, and it is injective (`WidenInjective`) |
| CStr.ToLower | src/strncasecmp.rs:18 | ASCII 'A'..'Z' move up by 32, and every other value is unchanged |
| Strlen.Strlen | src/strlen.rs:8-15 | the loop returns the index of the first NUL, and every byte before it is non-zero |
| Strlen.Examples | src/strlen.rs:21-34 | "Hello" gives 5, "" gives 0 and "X" gives 1 |
| Lib.CStringIter.constructor | src/lib.rs:172-174 | a new iterator starts at index 0, and the bytes still to come are the string's content |
| Lib.CStringIter.Next | src/lib.rs:180-186 | at the NUL it returns None and does not move, so later calls keep returning None; otherwise it returns the non-zero byte under the cursor and advances by one |
| Lib.Collect | src/lib.rs:164-187 | draining a new iterator yields exactly the bytes before the first NUL, in order |
| Memchr.Memchr | src/memchr.rs:9-18 | the first index below n whose byte equals `c` reduced mod 256; None exactly when no byte among the first n matches |
| Memchr.AsU8 | src/memchr.rs:14 | `c as u8` is the value in 0..255 congruent to `c` mod 256 |
| Memchr.LowBitsOnly | src/memchr.rs:14 | `c`, `c + 256` and `c - 256` give the same answer |
| Memchr.OnlyPrefixMatters | src/memchr.rs:14 | only the first n bytes are read |
| Memchr.FindsTerminator | src/memchr.rs:14-17 | searching for 0 past the end of a C string finds its NUL |
| Memchr.ExampleFindChar | src/memchr.rs:24-30 | 'w' in "hello world\0" is at 6 |
| Memchr.ExampleFindNull | src/memchr.rs:31-36 | 0 in "hello world\0" is at 11 |
| Memchr.ExampleFindNothing | src/memchr.rs:38-43 | a byte that is absent gives null |
| Strcmp.Strcmp | src/strcmp.rs:8-19 | the loop returns the reference difference `Cmp` |
| Strcmp.Cmp | src/strcmp.rs:8-19 | the difference of the two bytes at the first mismatch or at s1's NUL, between -255 and 255 |
| Strcmp.CmpZeroIff | src/strcmp.rs:14-16 | the result is 0 if and only if the two strings have equal contents |
| Strcmp.CmpSelf | src/strcmp.rs:13-16 | comparing a string with itself gives 0 |
| Strcmp.CmpAntisymmetric | src/strcmp.rs:8-16 | swapping the arguments negates the result |
| Strcmp.CmpIsLexicographic | src/strcmp.rs:8-16 | the result is negative if and only if s1's content comes before s2's in unsigned-byte lexicographic order |
| Strncmp.AsIsize | src/strncmp.rs:13 | `n as isize` on a 64-bit target: an `isize` in -2^63..2^63 that is congruent to n modulo 2^64 |
| Strncmp.Visited | src/strncmp.rs:13 | the range `0..n as isize` holds n positions when n < 2^63 and none otherwise |
| Strncmp.Strncmp | src/strncmp.rs:12-23 | for every `usize` n, the loop returns the reference `NCmp` over the positions the cast range visits |
| Strncmp.NCmp | src/strncmp.rs:14-22 | compares at most n positions, stopping at a difference or at s1's NUL, and n = 0 gives 0 |
| Strncmp.Trunc | src/strncmp.rs:13-21 | the bytes of the inspected prefix: at most n bytes, no NUL, and a prefix of the string |
| Strncmp.NCmpZeroIff | src/strncmp.rs:14-22 | the comparison over n positions is 0 if and only if the two strings agree on their first n bytes, up to the NUL |
| Strncmp.NCmpExtendsCmp | src/strncmp.rs:14-22 | with unsigned `c_char` and n beyond s1's length, the comparison over n positions is `strcmp`'s |
| Strncmp.StrncmpZeroIff | src/strncmp.rs:12-23 | below 2^63 the code compares n positions; its result is 0 if and only if n >= 2^63 or the strings agree on their first n bytes, up to the NUL |
| Strncmp.StrncmpExtendsCmp | src/strncmp.rs:12-23 | with unsigned `c_char` and s1's length < n < 2^63, the code returns `strcmp`'s result |
| Strncmp.SizeMaxComparesNothing | src/strncmp.rs:13 | "a" against "b" with n = 2^64 - 1 gives 0 as written, where comparing n positions gives -1 |
| Strncmp.Examples | src/strncmp.rs:29-54 | "123" vs "1234" over 3 bytes gives 0; "123" vs "x1234" is negative and "bbbbb" vs "aaaaa" is positive, for either signedness |
| Strncasecmp.Strncasecmp | src/strncasecmp.rs:11-24 | the bounded loop returns the reference `NCaseCmp` |
| Strncasecmp.NCaseCmp | src/strncasecmp.rs:11-24 | compares lowercased bytes over at most n positions, and n = 0 gives 0 |
| Strncasecmp.NCaseCmpZeroIff | src/strncasecmp.rs:12-22 | the result is 0 if and only if the two inspected prefixes are equal once lowercased |
| Strncasecmp.CaseBlind | src/strncasecmp.rs:18 | changing the case of ASCII letters in either string does not change the result |
| Strncasecmp.Lowered | src/strncasecmp.rs:18 | lowercasing a sequence lowercases every byte and keeps the length |
| Strncasecmp.Examples | src/strncasecmp.rs:30-55 | "abc" vs "AbCDEF" over 3 bytes gives 0; "123" vs "x1234" is negative and "bbbbb" vs "aaaaa" is positive |
| Strcpy.Strcpy | src/strcpy.rs:11-23 | dest from the offset becomes src up to and including its NUL, and every other byte of dest is unchanged |
| Strcpy.CopyInto | src/strcpy.rs:12-21 | the copy puts src's bytes up to its NUL at the offset and leaves the bytes before and after alone |
| Strcpy.ReadsBack | src/strcpy.rs:12-21 | reading dest from the offset as a C string gives src's content |
| Strcpy.ExampleShort | src/strcpy.rs:29-38 | "hi" into "abcdef" gives "hi\0def" |
| Strcpy.ExampleExact | src/strcpy.rs:40-46 | an exact-fit copy into 3 bytes gives "hi\0" |
| Strcat.Strcat | src/strcat.rs:10-13 | strcat is strcpy at offset strlen(dest) |
| Strcat.Concatenates | src/strcat.rs:10-13 | the result reads as the old content of dest followed by the content of src |
| Strcat.ExampleBufferTooSmall | src/strcat.rs:19-28 | the unit test's 6-byte buffer cannot hold "hello world" |
| Strcat.ExampleSimple | src/strcat.rs:19-28 | with a 12-byte buffer, "hello" and " world" give "hello world\0" |
| Strncpy.Strncpy | src/strncpy.rs:17-29 | the first `count` bytes of dest become the copied prefix of src padded with zeros (`NCopied`), and bytes from `count` on are unchanged |
| Strncpy.Zeros | src/strncpy.rs:26-28 | the zero fill: k bytes, all 0 |
| Strncpy.Filled | src/strncpy.rs:17-28 | the copy loop followed by the zero fill gives the copied bytes, then zeros up to `count`, then the old tail |
| Strncpy.TruncIsPrefix | src/strncpy.rs:17-25 | the copy stops after `count` bytes or at src's NUL |
| Strncpy.CopiedShape | src/strncpy.rs:17-28 | the output is exactly `count` bytes; when src is shorter it reads back as src; when src has no NUL in its first `count` bytes, exactly those bytes are copied and no NUL is written |
| Strncpy.ExampleShort | src/strncpy.rs:36-48 | "hi" with count 5 writes "hi\0\0\0", and over "abcdef" the whole six bytes read "hi\0\0\0f" |
| Strncpy.ExampleShortBuffer | src/strncpy.rs:36-48 | `strncpy` on the six-byte buffer "abcdef" with "hi" and count 5 leaves "hi\0\0\0f" |
| Strncpy.ExampleTruncated | src/strncpy.rs:50-59 | "hello" with count 2 writes "he" and no NUL |
| Strchr.Strchr | src/strchr.rs:10-21 | the index loop returns the reference `FirstMatch` |
| Strchr.FirstFrom | src/strchr.rs:11-20 | the first index from i up to and including the NUL whose widened byte equals needle; None exactly when none does |
| Strchr.FirstMatchAt | src/strchr.rs:11-19 | a matching index with no match before it is the result |
| Strchr.FindsTerminator | src/strchr.rs:35-39 | needle 0 finds the terminator at strlen |
| Strchr.OutOfRangeNeverMatches | src/strchr.rs:13 | a needle outside the range of `c_char` is never found |
| Strchr.ExampleNoMatch | src/strchr.rs:27-32 | 'X' is absent from "hayyystack" |
| Strchr.ExampleTerminator | src/strchr.rs:35-39 | 0 in "hayyystack" gives 10 |
| Strchr.ExampleStart | src/strchr.rs:42-46 | 'h' in "hayyystack" gives 0 |
| Strchr.ExampleMiddle | src/strchr.rs:49-53 | 'y' in "hayyystack" gives 2 |
| Strchr.ExampleEnd | src/strchr.rs:56-60 | 'k' in "hayyystack" gives 9 |
| Strrchr.Strrchr | src/strrchr.rs:10-22 | the loop that updates `last` returns the reference `LastMatch` |
| Strrchr.LastBelow | src/strrchr.rs:11-21 | the last index below k whose widened byte equals needle (k at most one past the NUL, so the scan never passes the terminator); None exactly when none does |
| Strrchr.FindsTerminator | src/strrchr.rs:35-39 | needle 0 gives strlen |
| Strrchr.FirstNotAfterLast | src/strrchr.rs:11-21 | strrchr finds something exactly when strchr does, and never an earlier index |
| Strrchr.ExampleNoMatch | src/strrchr.rs:28-33 | 'X' is absent from "hayyystack" |
| Strrchr.ExampleTerminator | src/strrchr.rs:35-39 | 0 in "hayyystack" gives 10 |
| Strrchr.ExampleStart | src/strrchr.rs:43-47 | the last 'h' in "hayhay" is at 3 |
| Strrchr.ExampleMiddle | src/strrchr.rs:50-54 | the last 'y' in "hayyystack" is at 4 |
| Strrchr.ExampleEnd | src/strrchr.rs:57-61 | the last 'k' in "hayyystack" is at 9 |
| Strstr.Strstr | src/strstr.rs:10-36 | the nested loops return the reference `Occurrence`; an empty needle gives the start of the haystack |
| Strstr.FirstFrom | src/strstr.rs:14-35 | the smallest index from i and below strlen(haystack) where the needle's bytes occur; None exactly when there is none |
| Strstr.MatchBeforeTerminator | src/strstr.rs:19-31 | a match lies entirely before the haystack's NUL |
| Strstr.FoundAt | src/strstr.rs:14-34 | for a non-empty needle, the first occurrence is the result |
| Strstr.NotFound | src/strstr.rs:35 | for a non-empty needle that does not occur, the result is null |
| Strstr.ExampleNoMatch | src/strstr.rs:42-48 | "needle" is absent from "haystack" |
| Strstr.ExampleStart | src/strstr.rs:50-56 | "hay" in "haystack" is at 0 |
| Strstr.ExampleMiddle | src/strstr.rs:58-64 | "yst" in "haystack" is at 2 |
| Strstr.ExampleEnd | src/strstr.rs:66-72 | "stack" in "haystack" is at 3 |
| Strstr.ExamplePartial | src/strstr.rs:74-80 | a needle longer than the haystack is not found |
| Strspn.IsCInCharset | src/strspn.rs:32-39 | the scan answers true exactly when the byte is in the charset's content |
| Strspn.Strspn | src/strspn.rs:10-30 | a null argument gives 0; otherwise the result is the reference `Span` |
| Strspn.Span | src/strspn.rs:22-29 | the length of the longest prefix of s all of whose bytes are in the charset |
| Strspn.SpanUnique | src/strspn.rs:22-29 | any n with that property is the result |
| Strspn.SpanBounds | src/strspn.rs:29 | the result is strlen(s) when every byte is in the charset, and 0 for an empty string or an empty charset |
| Strspn.DigitSpan | src/strspn.rs:22-29 | against "0123456789", the result is the length of the leading run of digits |
| Strspn.ExampleComplete | src/strspn.rs:43-51 | "987654321" gives 9 |
| Strspn.ExampleSubset | src/strspn.rs:53-61 | "98xx7654321" gives 2 |
| Strcspn.Strcspn | src/strcspn.rs:10-30 | a null argument gives 0; otherwise the result is the reference `CSpan` |
| Strcspn.CSpan | src/strcspn.rs:22-29 | the length of the longest prefix of s containing no byte of the charset |
| Strcspn.CSpanUnique | src/strcspn.rs:22-29 | any n with that property is the result |
| Strcspn.EmptyStringIsZero | src/strcspn.rs:83-91 | an empty string gives 0 |
| Strcspn.EmptyCharsetIsLength | src/strcspn.rs:73-81 | an empty charset gives strlen(s) |
| Strcspn.SpanComplement | src/strcspn.rs:22-29 | strspn or strcspn is 0, and on a non-empty string strspn is 0 exactly when strcspn is positive |
| Strcspn.NonDigitSpan | src/strcspn.rs:22-29 | against the digits, the result is the length of the leading run of non-digits |
| Strcspn.ExampleComplete | src/strcspn.rs:43-51 | "abcdef" against the digits gives 6 |
| Strcspn.ExampleSubset | src/strcspn.rs:53-61 | "xyz1" gives 3 |
| Strcspn.ExampleNone | src/strcspn.rs:63-71 | "567" gives 0 |
| Strcspn.ExampleEmptyCharset | src/strcspn.rs:73-81 | "AABBCCDD" against "" gives 8 |
| Strtol.Strtol | src/strtol.rs:9-23 | the loop returns the decimal value of the leading run of ASCII digits, in 0..LONG_MAX |
| Strtol.DigitRun | src/strtol.rs:15-20 | the scan stops at the first non-digit, with no whitespace, sign or base handling |
| Strtol.DecValueMonotone | src/strtol.rs:16-17 | more digits never give a smaller value |
| Strtol.ExampleEmpty | src/strtol.rs:29-33 | "" gives 0 |
| Strtol.ExampleOne | src/strtol.rs:35-39 | "1" gives 1 |
| Strtol.ExampleThree | src/strtol.rs:41-45 | "123" gives 123 |
| Atoi.Atoi | src/atoi.rs:18-27 | strtol clamped to INT_MAX, always within the `CInt` range |
| Atoi.Examples | src/atoi.rs:11-16 | "123x" gives 123 and "" gives 0 |
| Itoa.Utoa | src/itoa.rs:42-74 | the return value is the reference `UtoaResult`, and the buffer changes exactly by `UtoaWritten` from the offset, with every other byte unchanged |
| Itoa.PushDigits | src/itoa.rs:47-59 | the loop writes the least-significant-first digits, at most sLen of them, and leaves a non-zero remainder exactly when they do not fit |
| Itoa.ReverseRange | src/itoa.rs:71 | the in-place reversal reverses exactly that slice |
| Itoa.Itoa | src/itoa.rs:19-32 | a negative i with room writes '-' and then the digits of its magnitude in the remaining sLen - 1 bytes, and returns utoa's count without the sign; otherwise it is utoa |
| Itoa.LsdChars | src/itoa.rs:47-59 | the digits least significant first, drawn from '0'-'9' and 'a'-'f' |
| Itoa.RoundTrip | src/itoa.rs:45-73 | decoding the digits in the radix gives back u |
| Itoa.LsdRoundTrip | src/itoa.rs:47-59 | the least-significant-first digits, decoded in that order, give back u |
| Itoa.DigitsBelowRadix | src/itoa.rs:47-59 | every digit is below the radix |
| Itoa.DigitsAreLowercase | src/itoa.rs:47-59 | every digit is one of '0'-'9' then lowercase 'a'-'f', and none is NUL |
| Itoa.DigitCount | src/itoa.rs:47-63 | u needs at most k digits exactly when u < radix^k |
| Itoa.FailsIffTooLong | src/itoa.rs:47-63 | utoa returns -1 exactly when u needs more than sLen digits |
| Itoa.SuccessIsCString | src/itoa.rs:65-73 | when the digits fit with room to spare, the result is the digit count and the written bytes read as the digits followed by a NUL |
| Itoa.Zero | src/itoa.rs:81-89 | zero renders as "0" and returns 1 |
| Itoa.ExampleDecimal | src/itoa.rs:101-109 | 123 renders as "123" |
| Itoa.ExampleTooSmall | src/itoa.rs:111-115 | 10 into a 1-byte buffer returns -1 |
| Itoa.ExampleHex | src/itoa.rs:117-128 | 0xDEADBEEF renders as "deadbeef" |
| Itoa.ExampleOctal | src/itoa.rs:130-138 | 0x1FC renders as "774" in base 8 |
| Itoa.ExampleBinary | src/itoa.rs:140-151 | 0xE2 renders as "11100010" in base 2 |
| Itoa.ExampleNegative | src/itoa.rs:153-161 | -123 renders as "-123" with a count of 3 |
| Itoa.DecimalFitsIn20 | src/itoa.rs:42-74 | a `u64` needs at most 20 decimal digits |
| Strtoul.Strtoul | src/strtoul.rs:42-128 | the value and end index are the reference `Parse` |
| Strtoul.SkipHeader | src/strtoul.rs:49-76 | skipping whitespace, the sign and the hex prefix gives the reference header |
| Strtoul.ScanDigits | src/strtoul.rs:84-114 | the loop stops at the first byte that is not a digit of the radix; without overflow the value is that of the digits, and on overflow it is ULONG_MAX while the remaining digits are still consumed |
| Strtoul.Cutoffs | src/strtoul.rs:78-79 | cutoff and cutlim are ULONG_MAX's quotient and remainder by the base |
| Strtoul.Accumulate | src/strtoul.rs:103-110 | one digit either gives acc * base + d or, when that passes ULONG_MAX, saturates with `any` = -1 |
| Strtoul.CutoffExact | src/strtoul.rs:103-110 | the cutoff/cutlim guard fires exactly when acc * base + d passes ULONG_MAX |
| Strtoul.DigitValue | src/strtoul.rs:85-91 | digits map to 0..9 and letters of either case to 10..35 |
| Strtoul.Negate | src/strtoul.rs:115-117 | negation is wrap-around modulo 2^64 |
| Strtoul.SameClassesAsCtype | src/strtoul.rs:130-142 | the private `isspace`/`isdigit` agree with the library's |
| Strtoul.HeaderShape | src/strtoul.rs:49-66 | leading whitespace is skipped, at most one sign is accepted, and the digits start at most 3 bytes later |
| Strtoul.BaseZero | src/strtoul.rs:68-76 | base 0 selects hex, octal or decimal, and octal only on a leading '0' |
| Strtoul.ResultShape | src/strtoul.rs:84-125 | the value is at most ULONG_MAX; the end is null exactly when no digit was read, and then the value is 0; otherwise the end is one past the last digit, before or at the NUL |
| Strtoul.SignRule | src/strtoul.rs:97-117 | on overflow the result is ULONG_MAX whatever the sign; otherwise '-' gives the wrap-around negation and '+' or no sign gives the value |
| Strtoul.InvertsUtoa | src/strtoul.rs:42-128 | parsing utoa's digits in the same radix gives back the number, ending at the NUL |
| Strtoul.ExampleFirst | src/strtoul.rs:159-177 | "10" gives 10 and ends after 2 bytes |
| Strtoul.ExampleOverflow | src/strtoul.rs:159-177 | " 2" followed by 29 zeros saturates to ULONG_MAX and consumes all the digits |
| Strtoul.ExampleThird | src/strtoul.rs:159-177 | " 30" gives 30 |
| Strtoul.ExampleNegative | src/strtoul.rs:159-177 | "-40" gives 2^64 - 40 |
| Strtoul.ExampleHex | src/strtoul.rs:179-190 | "0xAA123" in base 0 gives 0xAA123 |
| Strtoul.ExampleHexZero | src/strtoul.rs:179-190 | "0X00" in base 0 gives 0 and ends at the NUL |
| Strtoul.ExampleNegativeHex | src/strtoul.rs:179-190 | "-0x123456F" gives 2^64 - 0x123456F |
| Strtoul.ExampleNoDigits | src/strtoul.rs:119-125 | "  +x" reads no digit: the value is 0 and the end is null |
| Snprintf.Vsnprintf | src/snprintf.c:103-357 | returns the length of everything the format produces as `(int)`, or -1 on an unsupported qualifier; the buffer holds the first `size` bytes of that output, plus a NUL when it fits, and nothing at or past `size` is written (`Stored`) |
| Snprintf.Process | src/snprintf.c:110-347 | one format byte writes the reference step's output, updates the flags and consumes its arguments, or stops the call |
| Snprintf.Escaped | src/snprintf.c:112-331 | a byte after '%' or after a qualifier is handled as the reference conversion says |
| Snprintf.WriteOutput | src/snprintf.c:398-412 | `written` always grows by one, but the byte is stored only below `size` |
| Snprintf.WriteCString | src/snprintf.c:314-323 | %s emits the argument's bytes up to its NUL, upper-cased when asked |
| Snprintf.RenderUnsigned | src/snprintf.c:133-270 | %u and %x/%X emit the decimal or hex digits of the argument, with %X upper-cased |
| Snprintf.RenderSigned | src/snprintf.c:271-306 | %d/%i emit '-' for negative arguments, then the decimal digits of the magnitude |
| Snprintf.ItoaWrittenIsSigned | src/snprintf.c:40-45 | for every `long long`, the 21-byte digit buffer receives itoa's digits with their NUL |
| Snprintf.UnsignedFits | src/snprintf.c:40-45 | every `u64` in decimal or hex fits in the 21-byte buffer with its NUL |
| Snprintf.SignedFits | src/snprintf.c:40-45 | every `i64`, including the minimum, fits in the 21-byte buffer with its sign and NUL |
| Snprintf.UpcaseLetters | src/snprintf.c:417-426 | 'a'..'z' become 'A'..'Z' and lowercase back; every other byte is unchanged |
| Snprintf.UpperHex | src/snprintf.c:225-270 | %X gives digits and 'A'..'F' that lowercase to the %x output |
| Snprintf.StoredShape | src/snprintf.c:350-354 | the bytes at or past `size` are untouched; the output is stored below `size`, followed by a NUL only when it is shorter than `size` |
| Snprintf.NoPercentIsLiteral | src/snprintf.c:342-344 | a format without '%' produces itself |
| Snprintf.ExamplePercent | src/snprintf.c:324-326 | "%%" produces "%" |
| Snprintf.ExampleUnknown | src/snprintf.c:327-331 | an unknown conversion drops the '%' and that byte |
| Snprintf.ExampleTripleLong | src/snprintf.c:125-132 | a third 'l' returns -1 after the literal text before it |
| Snprintf.ExampleLongThenSize | src/snprintf.c:117-124 | 'z' after 'l' returns -1 |
| Snprintf.ExampleSizeThenLong | src/snprintf.c:117-178 | "%zlu" prints the argument in decimal |
| Snprintf.ExampleChar | src/snprintf.c:307-313 | %c emits the argument truncated to a byte |
| Snprintf.TwoStrings | src/snprintf.rs:60-64 | "%s, %s!" produces both strings with the literal text between them |
| Snprintf.ExampleStrings | src/snprintf.rs:60-64 | "%s, %s!" with "Hello" and "World" gives "Hello, World!" |
| Snprintf.ExampleUpperHex | src/snprintf.c:225-270 | %X of 0xDEADBEEF gives "DEADBEEF" |
| Snprintf.ExampleNegative | src/snprintf.rs:74-95 | %d and %lld of -100 give "-100" |
| Snprintf.ExampleTruncated | src/snprintf.c:350-356 | "hello" into 3 bytes stores "hel" without a NUL and returns 5 |
| QsortR.QsortR | src/qsort_r.rs:9-44 | with a present comparator whose "greater" answers are consistent: 0 or 1 elements leave the buffer untouched; afterwards every adjacent pair compares at most 0, and the elements are a permutation of the input |
| QsortR.Round | src/qsort_r.rs:25-43 | one outer iteration shrinks the gap by `next_gap`, and the new elements and `swapped` are those of the reference sweep with the new gap; it permutes the elements; a gap-1 pass without a swap leaves them sorted pair by pair, and one with a swap removes inversions |
| QsortR.Pass | src/qsort_r.rs:28-38 | one pass compares element i with element i + gap for every i in 0..nmemb - gap, and swaps the pair when the comparator answers more than 0 (reference `Sweep`) |
| QsortR.Visit | src/qsort_r.rs:31-38 | one comparison, with `arg` handed unchanged to the comparator, and with the byte cursors advanced by one element |
| QsortR.Exchange | src/qsort_r.rs:32-35 | swapping the bytes at two element offsets swaps those two elements |
| QsortR.SwapBytes | src/qsort_r.rs:58-62 | exactly `width` bytes are exchanged and nothing else changes |
| QsortR.SwapRangesInvolution | src/qsort_r.rs:58-62 | swapping twice gives back the buffer |
| QsortR.NextGap | src/qsort_r.rs:46-56 | the gap is at least 1 and never 9 or 10; it stays 1 at 1 and strictly decreases above it |
| QsortR.RuleOfEleven | src/qsort_r.rs:46-56 | the rule of 11: the next gap is 11 exactly for gaps 12 to 15 |
| QsortR.SweepPermutes | src/qsort_r.rs:32-35 | a pass only rearranges the elements |
| QsortR.SweepUnswapped | src/qsort_r.rs:25-43 | a pass without a swap changes nothing, and every pair it compared was in order |
| QsortR.SweepSwappedUnsorted | src/qsort_r.rs:25-43 | a pass over elements already in order for its gap swaps nothing |
| QsortR.SweepInversions | src/qsort_r.rs:25-43 | on a gap-1 pass every swap removes an inversion, which bounds the number of rounds |
| QsortR.ElemsSwap | src/qsort_r.rs:58-62 | swapping two byte ranges swaps the two elements |
| QsortR.SwapPermutes | src/qsort_r.rs:32-35 | an element swap is a permutation |
| QsortR.AdjacentToSorted | src/qsort_r.rs:25-43 | with a transitive comparator, the exit condition means every pair is in order |
| QsortR.Determined | src/qsort_r.rs:25-43 | with a transitive and antisymmetric comparator, the postcondition fixes the result |
| QsortR.CmpI32 | src/qsort_r.rs:83-87 | the unit test's comparator gives -1, 0 or 1 from the little-endian `i32` words |
| QsortR.I32Order | src/qsort_r.rs:83-87 | that comparator meets the sort's requirements |
| QsortR.ExampleFiveToOne | src/qsort_r.rs:68-81 | the words 5, 4, 3, 2, 1 sort to 1, 2, 3, 4, 5 |
| Qsort.Qsort | src/qsort.rs:9-44 | the same sort with a two-argument comparator: 0 or 1 elements are untouched; otherwise the result is sorted pair by pair and a permutation |
| Qsort.LiftPreserves | src/qsort.rs:13-16 | the comparator with an ignored context gives the same requirements and the same notion of sorted |
| Qsort.Cmp | src/qsort.rs:82-92 | the unit test's comparator orders by the `i32` value |
| Qsort.ExampleFiveToOne | src/qsort.rs:69-80 | the words 5, 4, 3, 2, 1 sort to 1, 2, 3, 4, 5 |
| Rand.Seed | src/rand.rs:15-18 | seed 0 becomes 1, and every other seed is kept |
| Rand.SchrageIsParkMiller | src/rand.rs:21-32 | Schrage's method computes 16807·x mod (2^31 - 1) for every `u32` word, with no `i32` overflow on the way |
| Rand.Table | src/rand.rs:12-41 | the table prefix, one word per position |
| Rand.TableEntries | src/rand.rs:15-38 | r[0] is the seed, r[i] = 16807·r[i-1] mod (2^31 - 1) for 1 <= i < 31, r[31..34) copies r[0..3), and r[i] = r[i-31] + r[i-3] mod 2^32 up to 344 |
| Rand.TableWords | src/rand.rs:12-41 | every table word is a `u32` |
| Rand.ZeroSeedIsOne | src/rand.rs:15-18 | seeds 0 and 1 build the same table |
| Rand.StepKeepsState | src/rand.rs:43-48 | `next` changes only r[n mod 344], keeps n below 344 and the words `u32`, and returns the stored word shifted right by one, in 0..2^31 |
| Rand.StepIsLaggedSum | src/rand.rs:43-48 | the stored word is the sum of the words 31 and 3 places behind it, counted cyclically |
| Rand.GnuRand.constructor | src/rand.rs:12-41 | the three loops fill the 344 words of the reference table, and n starts at 0 |
| Rand.GnuRand.Next | src/rand.rs:43-48 | one step updates the table, n and the output as the reference step does |
| Rand.Global.constructor | src/rand.rs:51 | the state starts empty |
| Rand.Global.Srand | src/rand.rs:57-60 | srand replaces the state with a fresh table from the seed |
| Rand.Global.Rand | src/rand.rs:66-71 | before any srand, rand behaves as if seeded with 1; afterwards it steps the existing state |
| Rand.ExampleDefaultTable | src/rand.rs:12-41 | seed 1 starts the table with 1, 16807, 282475249, 1622650073 |
| Rand.TableRecurrent | src/rand.rs:15-38 | the table satisfies its recurrences at every position |
| Rand.FirstOutputsFromWords | src/rand.rs:43-48 | the first three outputs of a fresh table are (r[313+k] + r[341+k]) mod 2^32 shifted right by one, for k = 0, 1, 2 |
| Rand.DefaultSeedOutputs | src/rand.rs:76-84 | seed 1's first three outputs are 1804289383, 846930886 and 1681692777 |
| Rand.SeedFiveOutputs | src/rand.rs:85-94 | seed 5's first three outputs are 590011675, 99788765 and 2131925610 |
| Rand.TestRand | src/rand.rs:76-84 | three calls of `rand` on the fresh global state return 1804289383, 846930886 and 1681692777 |
| Rand.TestSrand | src/rand.rs:85-94 | after `srand(5)`, three calls of `rand` return 590011675, 99788765 and 2131925610 |
| RandR.RandR | src/rand_r.rs:15-45 | the result and the new seed are the reference pumps and field selections |
| RandR.Pump | src/rand_r.rs:18-21 | pump is x·1103515245 + 12345 modulo 2^width |
| RandR.SelectTop | src/rand_r.rs:23-26 | select_top takes `bits` bits from bit 16 up, so its value is below 2^bits |
| RandR.ResultRange | src/rand_r.rs:8-41 | the result lies in 0..RAND_MAX (line 8), and below 2^15 on the 15-bit path; the stored seed stays within the width |
| RandR.LongPathFields | src/rand_r.rs:34-42 | on the 31-bit path the result's top 11 bits and its two 10-bit fields come from three successive states, and *seedp becomes the last state |
| RandR.DisjointOr | src/rand_r.rs:38-40 | the three fields occupy disjoint bits, so the bitwise or is their sum and stays below 2^31 |
| RandR.WidthIrrelevant | src/rand_r.rs:18-41 | the results do not depend on whether `c_ulong` is 32 or 64 bits wide |
| RandR.ExampleLong | src/rand_r.rs:50-66 | seed 5 gives 234104184, 1214203244 and 1803669308 on the 31-bit path |
| RandR.ExampleShort | src/rand_r.rs:50-66 | seed 5 gives 18655, 8457 and 10616 on the 15-bit path |

## Left out

- Abs.Abs: `i32::abs` overflows on INT_MIN (a panic in debug builds, wrap-around in release builds), so the model requires `INT_MIN < i`.
- Strncmp.NCmpZeroIff: states the comparison over n bytes that section 7.21.4.4 of ISO/IEC 9899:1999 describes. The code agrees with it only for n < 2^63; `StrncmpZeroIff` states the code's own result for every n.
- Strncmp.NCmpExtendsCmp: likewise holds for the code only when n < 2^63 (`StrncmpExtendsCmp`). From 2^63 on, the code returns 0.
- Strncmp.Strncmp: `usize` is taken as 64 bits. On a 32-bit target the cast turns negative from 2^31 on, which is not modelled.
- Strtol.Strtol: `result += (c - b'0') as i32` (src/strtol.rs:17) compiles only where `CLong` is `i32`; the 64-bit case (`longMax == INT64_MAX`) is a generalisation of the code.
- Strtol: the source accumulates `result * 10 + d` with no overflow guard, so the model requires the decimal value to fit in `c_long`. Atoi inherits that precondition.
- Itoa: `-i` for `i64::MIN` is taken as the wrap-around magnitude 2^63, as a release build computes it.
- Strtoul: the negation `-(acc as CLong)` is taken as wrap-around modulo 2^64, and `CULong` is 64 bits. A null `endptr` is not modelled: the end index is always returned.
- Strtoul: when no digit is read, the end is null rather than `nptr`, as the code does. This deviates from section 7.20.1.4 of ISO/IEC 9899:1999.
- Strtoul: "0x" followed by a byte that is not a hex digit reads no digit and gives a null end, as the code does.
- Snprintf.Vsnprintf: the arguments are a typed sequence. A missing argument, a wrong argument type or an out-of-range value (the `BadArgs` outcome) is excluded by precondition, because `va_arg` is undefined there.
- Snprintf.Vsnprintf: `long`, `unsigned long` and `size_t` (the `z` qualifier) are taken as 64 bits, and `(int) written` is taken as two's-complement wrap-around.
- Snprintf.Vsnprintf: a truncated output gets no terminator, as the code does. This deviates from section 7.19.6.5 of ISO/IEC 9899:1999.
- The `snprintf` wrapper and the `va_list` plumbing (src/snprintf.c:371-378) are left out.
- The width, precision, zero-padding and `%.*s` tests in src/snprintf.rs exercise features the C code does not support, and are not modelled.
- QsortR.QsortR: an absent comparator panics in `unwrap()`, so a present one is a precondition. Termination needs the comparator never to call any two byte sequences each greater than the other (`Consistent`, which ranges over all byte sequences and not only the buffer's elements); that is a precondition too.
- QsortR.QsortR: the comparator is a total Dafny function of the two elements and `arg`. It cannot read or change the buffer.
- QsortR.NextGap: `gap * 10` is taken without the `usize` overflow that a gap above `usize::MAX / 10` would cause.
- Qsort.Qsort: the loop of src/qsort.rs is the same as that of src/qsort_r.rs. It is modelled once, in `QsortR`, and `qsort` runs it with a comparator that ignores the context.
- QsortR.CmpI32: the elements are read as little-endian `i32` words.
- Rand: the `critical_section` mutex around the global state (src/rand.rs:51-71) is left out. Only the lazy default seed is modelled.
- RandR.RandR: the bitwise or of the three fields is modelled as their sum; `DisjointOr` proves the two equal.
- The sorting is a comb sort with the rule of 11. There is no introsort, partition or heapsort in the code.
- `malloc`, `atof`/`strtof` (floating point), `signal`, `errno`, src/ctype.rs (a duplicate of src/lib.rs), the rest of src/lib.rs, build.rs and examples/rand.rs are not part of this model.

## Findings

| source | as written | input that shows it | evidently intended | confidence | as-written member | corrected member |
|---|---|---|---|---|---|---|
| src/strcat.rs:19-28 | the unit test `simple` declares the buffer as `b"hello\0"` (6 bytes) and appends " world" into it | dest = "hello\0" in a 6-byte buffer, src = " world": 12 bytes are written | a buffer of at least 12 bytes, giving "hello world\0" | not executed | Strcat.ExampleBufferTooSmall | Strcat.ExampleSimple |
| src/strncmp.rs:13 | the loop runs over `0..n as isize`, and the cast is negative for n >= 2^63, so the range is empty | s1 = "a", s2 = "b", n = 2^64 - 1 (`SIZE_MAX`): the code returns 0 without reading either string | compare at most n bytes, as in section 7.21.4.4 of ISO/IEC 9899:1999: the result is negative | not executed | Strncmp.SizeMaxComparesNothing | Strncmp.NCmpZeroIff |
