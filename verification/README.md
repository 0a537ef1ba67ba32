# Balloon raw data translator — a Dafny model

The translator reads a filter file of `name,lower_index,upper_index` lines.
Each such line becomes a `DataPart`: a named, inclusive range of character
positions. Each raw telemetry string the user enters is then shown through
every part, as `name: <characters in range>`. When the filter file is
missing, a default one is written, with a comment header and sixteen fields.

This project models that core as pure functions and proves what it does:

- `data_part.dfy` (`DataParts`): construction with bound swapping, and
  extraction with Python's slice rules.
- `file_processor.dfy` (`FileProcessor`): the loader without the file system.
  It cuts the text into lines, drops comments and blanks, converts each
  remaining line, and keeps one diagnostic per rejected line.
- `default_file.dfy` (`DefaultFile`): the text of the default file, and what
  loading it gives.
- `operator.dfy` (`Operator`): the displayed lines and the quit test of the
  input loop.
- `text.dfy` (`PyText`) and `pyint.dfy` (`PyInt`): the Python primitives these
  rely on. They cover `str.isspace`, `strip`, `split`, `join`, `readlines`,
  ASCII `lower`, slicing, `int()` in base 10 and `str()` of an integer.
- `results.dfy` (`Results`): `Option` and `Result`.

The source's `print` calls become returned values. A loaded file is a
`LoadResult`, which holds:

- the parts, in file order;
- one `LineError` per rejected line, giving the line and the cause;
- the names of the parts whose bounds were swapped.

The causes follow the exceptions of `DataPart(parts[0], int(parts[1]),
int(parts[2]))`, in Python's evaluation order. A missing token
(`IndexError`) is `MissingToken`, and a token `int()` rejects (`ValueError`)
is `NotAnInteger`.

Where the code and its description differ, the model follows the code:

- Tokens after the third are ignored. A line does not need exactly three.
- The name is the first token exactly as written, so spaces before the first
  comma stay in it. Only the two numbers are trimmed, by `int()`.
- The header says a name must not contain `;`. In fact only a `;` at the
  start of the line makes it a comment; a `;` later in a name is kept.

## Model

| member | source | states |
|---|---|---|
| DataParts.NewDataPart | data_translator.py:40-54 | After construction `lower <= upper`. The bounds are swapped exactly when the given lower exceeds the given upper, and kept otherwise; the name is unchanged. |
| DataParts.NormaliseIdempotent | data_translator.py:49-54 | Normalising an already-normalised part changes nothing. The two bounds are only ever reordered, never changed. A part is left as given iff it is already ordered. |
| DataParts.Extract | data_translator.py:64 | The slice `data[lower:upper+1]` never fails and is never longer than `data`. For `0 <= lower <= upper` it is `data` between the clipped bounds. An upper bound at or before `-1 - len(data)` gives the empty string. |
| DataParts.GetDataString | data_translator.py:61-64 | The shown line is the name, then `": "`, then the extracted slice, and its length is the sum of the three. |
| DataParts.ExtractClips | data_translator.py:64 | For `0 <= lower <= upper`, the slice length is `min(upper+1,len) - min(lower,len)`. Position `k` of the slice is position `lower+k` of the data. The slice is empty when `lower` is past the end. |
| DataParts.ExtractSelects | data_translator.py:64 | For any bounds, including negative ones counted from the end, the slice holds exactly the characters whose index lies in the selected range, in order. |
| DataParts.ExtractExample | data_translator.py:166 | The header's worked example: positions 1 to 8 of `test sentence` are `est sent`. |
| PyText.Strip | data_translator.py:122 | `strip()` leaves no whitespace at either end and never lengthens the text. |
| PyText.StripAt | data_translator.py:122 | If a string is a stripped middle with only whitespace before and after it, `strip()` returns exactly that middle. |
| PyText.StripSplits | data_translator.py:122 | `strip()` removes only whitespace: its result is a contiguous piece of the input with nothing but whitespace before and after it. |
| PyText.StripIdempotent | data_translator.py:122 | Stripping twice is stripping once. |
| PyText.StripIgnoresPadding | data_translator.py:122 | Whitespace added around a string does not change what `strip()` returns. |
| PyText.PySlice | data_translator.py:64 | A slice is never longer than the string. Its length is the distance between the clamped bounds when they are in order, and it is empty otherwise. |
| PyText.PySliceSelects | data_translator.py:64 | Python slicing selects the characters between the bounds after counting negative bounds from the end. |
| PyText.ReadLines | data_translator.py:117 | `readlines()` gives lines whose concatenation is the text. Every line but the last ends in a newline, and no line has a newline elsewhere. |
| PyText.Split | data_translator.py:134 | `split(',')` always gives at least one piece, even for empty text. |
| PyText.SplitPieces | data_translator.py:134 | No piece holds the separator, and there is one more piece than there are separators. |
| PyText.JoinSplit | data_translator.py:134 | Joining the pieces of a split with the separator gives the text back. |
| PyText.SplitJoin | data_translator.py:134 | Splitting at a separator that no piece contains gives the joined pieces back. |
| PyInt.ParseInt | data_translator.py:135 | `int()` rejects any text holding one of U+001C to U+001F. Otherwise it accepts only text that strips to a digit or a sign followed by digits and underscores. A leading digit gives a non-negative value and a leading `-` a non-positive one. |
| PyInt.ParseIntPadded | data_translator.py:135 | Whitespace that `int()` skips around a stripped token does not change its value. |
| PyInt.ParseIntToString | data_translator.py:135 | `int()` reads back `str(n)` for every integer `n`, surrounded by any whitespace that `int()` skips. |
| FileProcessor.KeptLines | data_translator.py:122-123 | Every kept line is non-empty, stripped, and does not start with `;`. |
| FileProcessor.KeptLinesHas | data_translator.py:122-123 | A string is kept iff some input line strips to it and is non-blank and not a comment. |
| FileProcessor.KeptLinesAppend | data_translator.py:122-123 | Filtering goes line by line, so the relative order of kept lines is preserved. |
| FileProcessor.KeptLinesOne | data_translator.py:122 | A single line is kept, in stripped form, exactly when it is a data line. |
| FileProcessor.KeptReadLines | data_translator.py:117-123 | Filtering the lines of `readlines()` equals filtering the pieces of the text split at newlines, because the kept newline is stripped. |
| FileProcessor.ParseLine | data_translator.py:134-135 | A kept line converts iff it has at least three comma-separated tokens and `int()` accepts tokens 1 and 2. The name is token 0, which holds no comma, and the bounds are the values of tokens 1 and 2. |
| FileProcessor.ParseLineErrors | data_translator.py:134-136 | An error names token 1 or 2. It is the first missing token, or the first token `int()` rejects, with its text. Every token before it is present and an integer, as in Python's evaluation order. |
| FileProcessor.InfoSeparatorRejected | data_translator.py:135-139 | The line `a,` U+001C `1,2` is rejected at token 1, because `int()` does not skip U+001C. |
| FileProcessor.ParseThreeTokens | data_translator.py:134-136 | For three comma-free tokens, the name is token 0 verbatim, trailing spaces included. Errors come in evaluation order: token 1's value, then token 2's. |
| FileProcessor.ParseLineIgnoresExtra | data_translator.py:134-135 | Anything after a third comma does not affect the outcome. |
| FileProcessor.ParseLineTooFewTokens | data_translator.py:134-136 | A line with fewer than two commas never converts. With no comma it fails on the missing token 1. |
| FileProcessor.ParseRenderLine | data_translator.py:134-135 | A line written as `name, lower, upper` converts back to that name and those bounds. |
| FileProcessor.Step | data_translator.py:131-139 | Each line adds exactly one to the parts plus diagnostics, and the notices never grow by more than the parts do. |
| FileProcessor.Collect | data_translator.py:129-139 | Parts plus diagnostics number the lines, notices never outnumber the parts, and every collected part has ordered bounds. |
| FileProcessor.ParseAll | data_translator.py:129-139 | Converting the kept lines gives as many parts plus diagnostics as there are lines, and no more notices than parts. |
| FileProcessor.ParseAllAppend | data_translator.py:129-139 | Loading goes line by line: the result for two blocks is the two results concatenated, so the file order is kept. |
| FileProcessor.ParseAllErrors | data_translator.py:136-139 | Each diagnostic names a kept line and the reason that line fails to convert. |
| FileProcessor.MalformedLineHarmless | data_translator.py:129-139 | Inserting a malformed line anywhere adds exactly its diagnostic at that position. The parts and swap notices are unchanged. |
| FileProcessor.Load | data_translator.py:108-141 | Parts plus diagnostics number exactly the kept lines, and every loaded part has ordered bounds. |
| FileProcessor.LoadToDataParts | data_translator.py:116-141 | The loader as written, filter then convert, computes `Load`, and parts plus diagnostics number the kept lines. |
| FileProcessor.ConvertLine | data_translator.py:131-139 | The loop body for one line is one step of the line-by-line collection. |
| FileProcessor.ConvertLines | data_translator.py:129-139 | The `for`/`try` loop appends a part, plus a notice when the bounds were swapped, or a diagnostic. It computes the line-by-line collection, and every diagnostic's line is one of its input lines. |
| FileProcessor.LoadRendered | data_translator.py:116-141 | Writing ordered, writable parts one per line and loading the text gives the same parts in the same order, with nothing reported. A writable name holds no comma, line feed or carriage return. The padding after each comma is whitespace `int()` skips, with no line break. |
| DefaultFile.HeaderIsComments | data_translator.py:151-176 | The header has 24 lines, and each is one line starting with `;`. |
| DefaultFile.DefaultPartsWritable | data_translator.py:178-196 | The 16 default fields all have ordered bounds, so none is swapped, and each can be written and read back. |
| DefaultFile.LoadHeaderAndFields | data_translator.py:151-199 | For any comment header followed by a blank line and field lines, the loader skips the header and the blank line and reads back exactly the parts. |
| DefaultFile.LoadDefault | data_translator.py:143-199 | Loading the default file gives exactly its 16 parts, with no diagnostic and no swap. The first is `PACKET SEND TIME` at 1..7 and the last is `COMMENT` at 81..999. |
| DefaultFile.DefaultContentLines | data_translator.py:151-199 | The default file cut at its newlines is the 24 header lines, one blank line and the 16 field lines. |
| DefaultFile.DefaultFirstLine | data_translator.py:180 | The first field line is `PACKET SEND TIME, 1, 7`. |
| DefaultFile.DefaultLastLine | data_translator.py:195 | The last field line is `COMMENT, 81, 999`. |
| Operator.Display | data_translator.py:215-220 | One line per part, in list order, and line `k` is part `k`'s name and slice. |
| Operator.DisplayAppend | data_translator.py:220 | Showing two lists one after the other equals showing their concatenation. |
| Operator.DisplayLine | data_translator.py:220 | Each displayed line is the name, `": "`, and exactly the characters of the data inside the part's range. |
| Operator.DisplayLineLength | data_translator.py:220 | For non-negative ordered bounds, a displayed line's length is the name's length plus 2 plus the covered part of the range. |
| Operator.IsQuit | data_translator.py:252-253 | The quit test holds iff the stripped input is `q`, `quit` or `exit` in any mix of letter case. |
| Operator.QuitIgnoresPadding | data_translator.py:250-254 | Whitespace around the entry does not change the quit decision. |
| Operator.QuitExample | data_translator.py:252-254 | ` QUIT` followed by a tab ends the loop. |
| Operator.NotQuitExample | data_translator.py:252-254 | `quit now` does not end the loop. |
| Operator.HandleInput | data_translator.py:250-256 | One round of the loop ends it iff the entry spells a quit word. Otherwise it shows one line per part, and line `k` is part `k`'s name and slice of the stripped entry. |
| Operator.HandleInputIgnoresPadding | data_translator.py:250-256 | The entry is stripped before display, so whitespace around it changes neither the decision nor the lines shown. |

## Left out

- File existence checks, opening, reading and writing files (`os.path` tests, `open`, `write`) are left out. The model takes the file's text as a parameter, and represents the default file by the text the two writes leave.
- The `OSError` fallback to the default filename and the filename prompt are left out, because they are file system and console interaction.
- The `print` calls are left out. Swap notices and diagnostics are returned in `LoadResult` as separate lists, so how they interleave on the console is not kept.
- The interactive `input()` loop, the banners, the two rules around the displayed lines and the "Press enter" pause are left out as console interaction. One round of the loop is modelled by `HandleInput`.
- `DataPart.__str__` is left out, because it is a debug representation only.
- The universal-newline translation done by `open()` in text mode is not modelled: a lone `\r` read from a file counts as whitespace, not as a line break. Names and padding that the model writes hold no `\r`, so the text it writes reads back the same with or without the translation.
- `int()` accepts only ASCII digits, with single underscores between digits; Unicode decimal digits are not modelled. `lower()` changes only ASCII capitals.
- FileProcessor.ParseLineErrors: the error's text is the token itself, not Python's exception message.
- PyInt.ParseInt: the limit on the number of digits `int()` converts is not modelled. Python 3.11 and later raise `ValueError` above 4300 digits by default, and `sys.set_int_max_str_digits` changes that limit, so arbitrarily long digit runs are accepted here.
