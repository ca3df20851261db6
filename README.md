# FiraMath subset naming — a Dafny model

`fonts/mimic.py` makes subsetted copies of the FiraMath OpenType font, one
for each KaTeX reference font. For each pair in its fixed `fontlist`, it
keeps the codepoints of the KaTeX font and renames the copy. Most of that
work happens inside fontTools. The script's own logic is what this project
models:

- **Name-table rewrite** (`set_font_name`). The method walks the font's
  `name` records (the OpenType Naming Table). It overwrites the text of name
  ID 1 (family) and name ID 2 (subfamily). Name IDs 4 (full name) and 6
  (PostScript name) both get `family-subfamily`. Each new text is encoded
  with the record's own encoding. `NameTable.SetFontName` does this in place
  on an `array<NameRecord>`, with a loop like the source's. It is proved
  equal to the function `NameTable.Renamed`. Lemmas state what `Renamed`
  writes, what it leaves alone, and that it is idempotent.
- **Name derivation**. Python `str.split` with `[0]` and `[-1]` is modelled
  in module `PyStr`. `Split` is proved against `Join` in both directions. On
  top of `PyStr`, module `Mimic` defines:
  - the subfamily label (`FontStyle`, line 67);
  - the output file name (`OutputName`, line 68);
  - the family handed to the rewrite (`FamilyName`, line 45).

  For every reference file named `KaTeX_<style>-<weight>.ttf` (with no `-`,
  `.` or `_` inside the parts):
  - the subfamily is `<weight>`;
  - the output file is `FiraMath_<style>-<weight>.otf`;
  - the family is `FiraMath_<style>`.
- **The fixed list**. `Mimic.FontList` holds the eight active pairs.
  `Mimic.Plan` models the driver loop. The model proves two things about
  the list. First, each entry's full name is its output file name without
  `.otf`. Second, no two entries write the same file.

Line 68 keeps everything after the last `_` of the file stem. So
`KaTeX_Size1-Regular.ttf` gives `FiraMath_Size1-Regular.otf`, and the weight
stays in the name. The commented-out call at line 88 names
`FiraMath_AMS-Regular.otf` the same way. The active list has eight entries.
`Mimic.FontList` is the `fontlist` constant (lines 73-84) written out.
`Mimic.FontListParts` is a helper that splits each of its reference names
into style and weight.

Calls into fontTools and Python's codecs, external libraries whose behaviour this model does not cover, become parameters. One example is
`str.encode` with the codec that `record.getEncoding()` picks: it becomes
the `encode: Encoder` argument, a function of the record's
(platformID, platEncID, langID) key and the text.

## Model

| member | source | states |
|---|---|---|
| `NameTable.SetFontName` | fonts/mimic.py:14-26 | After the loop, the record array equals `Renamed` of its old contents: each record is rewritten by its name ID, in place. |
| `NameTable.RenamedAt` | fonts/mimic.py:16-26 | The rewrite keeps the number of records. Position k holds the rewrite of the old record at position k, so records keep their order. |
| `NameTable.RenamedFamily` | fonts/mimic.py:17-18 | Every record with name ID 1 now holds the new family, encoded with that record's encoding. |
| `NameTable.RenamedSubfamily` | fonts/mimic.py:19-20 | Every record with name ID 2 now holds the new subfamily, encoded with that record's encoding. |
| `NameTable.RenamedFullAndPostScript` | fonts/mimic.py:21-26 | Every record with name ID 4 or 6 now holds `family + "-" + subfamily`, encoded with that record's encoding. |
| `NameTable.FullNameMatchesPostScriptName` | fonts/mimic.py:21-26 | A full-name record and a PostScript-name record with the same encoding end up with identical text. |
| `NameTable.RenamedKeepsTheRest` | fonts/mimic.py:16-26 | The record count is unchanged. No record's name ID, platform, encoding ID or language changes. Records with a name ID other than 1, 2, 4 or 6 are unchanged. |
| `NameTable.RenamedIdempotent` | fonts/mimic.py:16-26 | Renaming twice with the same family and subfamily gives the same records as renaming once. |
| `PyStr.Split` | fonts/mimic.py:67 | `s.split(sep)` gives at least one piece. No piece contains the separator, and joining the pieces with the separator gives back `s`. |
| `PyStr.SplitJoin` | fonts/mimic.py:67-68 | Splitting the join of separator-free pieces gives back exactly those pieces, so `Split` and `Join` are inverses. |
| `PyStr.SplitFirst` | fonts/mimic.py:45 | `s.split(sep)[0]` is a separator-free prefix of `s`. It is followed by the separator or by the end of `s`, so it is the text before the first separator. |
| `PyStr.SplitLast` | fonts/mimic.py:67 | `s.split(sep)[-1]` is a separator-free suffix of `s`. It is preceded by the separator or by the start of `s`, so it is the text after the last separator. |
| `Mimic.FontStyle` | fonts/mimic.py:67 | The subfamily label contains no `-` and no `.`. It is a suffix of the stem, the text before the first `.` of the reference file name. It is preceded by a `-` or starts the stem, so it is everything after the stem's last `-`. |
| `Mimic.OutputName` | fonts/mimic.py:68 | The output name starts with `FiraMath_` and ends with `.otf`. Between them is a suffix of the reference file's stem that contains no `_` and no `.`. That suffix is preceded by a `_` or starts the stem, so it is everything after the stem's last `_`. |
| `Mimic.FamilyName` | fonts/mimic.py:45 | The family is a prefix of the output path with no `-`. It runs up to the first `-` or to the end of the path. |
| `Mimic.CreateSubset` | fonts/mimic.py:66-69 | The job keeps the reference and template paths it was given. Its output file is `OutputName` of the reference (line 68) and its subfamily is `FontStyle` of it (line 67). Its family is the `-`-free prefix of the output file name that runs up to the first `-` or to the end (line 45). |
| `Mimic.FontStyleOfKatexFile` | fonts/mimic.py:67 | For `KaTeX_<style>-<weight>.ttf` with separator-free parts, the subfamily label is exactly `<weight>`. |
| `Mimic.OutputNameOfKatexFile` | fonts/mimic.py:68 | For such a file, the output file is `FiraMath_<style>-<weight>.otf`, so the weight is kept in the name. |
| `Mimic.FamilyOfOutputFile` | fonts/mimic.py:45 | For `FiraMath_<style>-<weight>.otf` with no `-` in `<style>`, the family handed to the rewrite is `FiraMath_<style>`. |
| `Mimic.DeriveFromKatexFile` | fonts/mimic.py:45-68 | For `KaTeX_<style>-<weight>.ttf` with separator-free parts, the subfamily is `<weight>` and the output is `FiraMath_<style>-<weight>.otf`. The family passed to the rewrite is `FiraMath_<style>`. |
| `Mimic.FullNameIsOutputStem` | fonts/mimic.py:45-69 | For such a file, the full name and PostScript name written (`family-subfamily`) equal the output file name without `.otf`. |
| `Mimic.OutputFileInjective` | fonts/mimic.py:68 | `FiraMath_<style>-<weight>.otf` determines its style and weight. |
| `Mimic.OutputNameInjective` | fonts/mimic.py:68 | Reference files with different (style, weight) pairs get different output file names. |
| `Mimic.Plan` | fonts/mimic.py:91-92 | The driver makes one job per list entry, in list order. Job i carries entry i's reference and template, and is exactly `CreateSubset` of entry i. |
| `Mimic.FontListShape` | fonts/mimic.py:73-84 | Every active reference file follows `KaTeX_<style>-<weight>.ttf` with separator-free parts. No (style, weight) pair repeats. |
| `Mimic.PlanEntry` | fonts/mimic.py:91-92 | For list entry i, the driver derives output `FiraMath_<style>-<weight>.otf`, family `FiraMath_<style>` and subfamily `<weight>`. |
| `Mimic.FontListFullNames` | fonts/mimic.py:73-84 | The driver makes eight jobs. For each, `family + "-" + subfamily + ".otf"` is its output file name. |
| `Mimic.AmsDerivation` | fonts/mimic.py:67-68 | `KaTeX_AMS-Regular.ttf` (the entry at line 74) gives subfamily `Regular` and output `FiraMath_AMS-Regular.otf`, with the weight kept; line 88 names the same file. The family cut at line 45 is `FiraMath_AMS`. |
| `Mimic.Size1Derivation` | fonts/mimic.py:67-68 | `KaTeX_Size1-Regular.ttf` gives subfamily `Regular` and output `FiraMath_Size1-Regular.otf`. |
| `Mimic.FontListOutputsDistinct` | fonts/mimic.py:73-84 | No two active entries write the same output file; for example, `Main-Italic` and `Math-Italic` stay apart. |

## Left out

- `get_ttf_unicode_chars` (fonts/mimic.py:9-12) is not modelled. It reads a cmap through fontTools (`TTFont`, `getBestCmap`), an external library whose behaviour this model does not cover.
- `subset_otf` is modelled only at line 45. `Options`, `Subsetter`, `populate`, `subset` and `font.save` are fontTools calls and file output. The claim that the subset keeps at least the requested codepoints therefore cannot be stated.
- Which codec `record.getEncoding()` picks, and what `str.encode` produces, are library codec behaviour. Both are the caller-supplied `Encoder` parameter.
- `str.encode` can raise `UnicodeEncodeError` part way through the loop, leaving earlier records already rewritten. That path is not modelled, because the encoder is taken to be total.
- Python's `font['name']` lookup is not modelled. `SetFontName` takes the record list directly.
- In Python, records are shared objects. The model stores them as values in an array, so aliasing of a record from elsewhere is not modelled.
- `print_charset` and `print_font_names` (fonts/mimic.py:50-63) are diagnostic console output, including the `errors='replace'` decoding fallback. They are not modelled.
- The driver's `print` (fonts/mimic.py:93) is console output and is not modelled.
- Missing files, parse failures and exceptions propagating from fontTools are library and I/O error paths. They are not modelled.
- The two commented-out Bold and BoldItalic pairs (fonts/mimic.py:75-76) are not part of `FontList`, just as they are not part of the running list.
