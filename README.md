# video-edit: a Dafny model of its own logic

`video-edit.py` joins personal video clips and background music into one
rendered video. Most of the script hands work to a media library (decoding,
resizing, loudness, concatenation, encoding) and to a downloader. This
project models the small part of the script that is deterministic and
self-contained, and proves properties of it:

- **Paths** (`paths.dfy`): Python's `str.split("/")` and `"/".join(...)`.
  From these it builds `getMusicDir`, which gives the folder of the links
  file. It also builds the split of the output filename into the directory
  that `joinVideoMusic` changes into and the base name it writes.
- **Ordering** (`ordering.dfy`): Python's string order and the
  modification-time order. It holds a stable insertion sort as the
  specification and an in-place array sort proved equal to it. It also proves
  that a stable sort has only one possible result, so the model's sort gives
  the same answer as Python's `list.sort`.
- **Importer** (`importer.dfy`): the `endswith("mp3")` and
  `endswith("mp4")` filters, the prefixing with the directory, and
  `importVideos`' choice between name order and time order. The directory
  listing and the modification times are inputs. `mtime` maps each full path
  to its time, because `os.path.getmtime` is called on `video_dir + name`.
- **Clip** (`clip.dfy`): the resize decision of `importClip`, returned as
  `NoResize`, `ToWidth(1920)` or `ToHeight(1080)`.
- **Cli** (`cli.dfy`): the defaults of `main`, its loop over getopt's
  (option, argument) pairs, the early exit on help, the exit status 2 on a
  parse error, and the choice between downloading the music and using a
  given music directory.

The model follows the code in one place where the command-line description
differs. The option registration offers `--music-dir` and `--gain`
(video-edit.py:121, 125); the usage text shows only `-m` and `-g`
(video-edit.py:132, 138). The dispatch tests `--music-file` and `--volume`
instead (video-edit.py:147, 151). getopt therefore accepts `--music-dir`
and `--gain`, but they change nothing. With `--music-dir` the music is still
downloaded. `Cli.GainAndMusicDirMisdispatched`,
`Cli.AcceptedOptionsReachBranch` and `Cli.LongGainAndMusicDirIgnored` state
this behaviour.

## Model

| member | source | states |
|---|---|---|
| `Paths.Split` | video-edit.py:9 | `split("/")` yields at least one piece, no piece contains `/`, and there is exactly one piece iff the string has no `/` |
| `Paths.JoinSplit` | video-edit.py:9 | joining the pieces of a split with `/` gives back the original string |
| `Paths.MusicDirIsPrefixThroughLastSlash` | video-edit.py:8-9 | `getMusicDir` ends with `/`; for a path with a `/` it is a prefix of the path and no `/` follows it; for a path without one it is exactly `/` |
| `Paths.OutputSplitRoundTrip` | video-edit.py:91-94 | for a filename containing `/`, directory part + `/` + base name is the filename, and the base name holds no `/` |
| `Paths.OutputSplitNoSlash` | video-edit.py:91-94 | for a filename without `/`, the directory part is empty and the base name is the whole filename |
| `Paths.RootFileHasEmptyDirPart` | video-edit.py:91-94 | for `/name`, the directory part is also empty and the base name is `name` |
| `Ordering.StrLessIrreflexive` | video-edit.py:61 | no string sorts before itself under Python's string order |
| `Ordering.StrLessTransitive` | video-edit.py:61 | Python's string order is transitive |
| `Ordering.StrLessTotal` | video-edit.py:61 | any two different strings are ordered one way or the other |
| `Ordering.SortCorrect` | video-edit.py:59-64 | the sort result is ascending by the key, is a permutation of the input, and keeps each group of equal keys in input order (stable) |
| `Ordering.StableSortUnique` | video-edit.py:59-64 | two ascending sequences of one length with the same groups of equal keys are equal, so a stable sort has only one possible result |
| `Ordering.StableSortIsSort` | video-edit.py:59-64 | any ascending, stable permutation of the input, such as the one Python's `list.sort` returns, is exactly the model's `Sort` |
| `Ordering.InsertLast` | video-edit.py:61 | one insertion step in place: the first `i + 1` cells become the stable insertion of `a[i]` into the sorted prefix, and the rest of the array is unchanged |
| `Ordering.SortInPlace` | video-edit.py:61-64 | sorting the array in place leaves in it the stable sort of its old contents |
| `Importer.Select` | video-edit.py:34 | every selected path is the directory followed by a listed entry that has the suffix, and there are no more results than entries |
| `Importer.SelectAppend` | video-edit.py:34 | selection distributes over concatenation of listings, so it keeps listing order |
| `Importer.SelectKeepsExactly` | video-edit.py:34 | `dir + s` is selected iff `s` is listed and ends with the suffix |
| `Importer.MusicSuffixExamples` | video-edit.py:34 | the match is case-sensitive and needs no dot: `foomp3` and `song.mp3` are kept and `x.MP3` is dropped |
| `Importer.KeyFor` | video-edit.py:59-64 | `order == "name"` selects name order; any other value selects time order over the given times |
| `Importer.FirstUnknown` | video-edit.py:64 | returns nothing iff every path has a time; otherwise it returns a path without a time that comes before any other such path |
| `Importer.ImportVideoPaths` | video-edit.py:57-64 | fails iff time order is chosen and some selected video has no time, and then names the first such path; otherwise returns the selected videos sorted ascending by the key, as a stable permutation |
| `Importer.NameOrderExample` | video-edit.py:59-61 | name order turns `c.mp4, a.mp4, b.mp4` into `a.mp4, b.mp4, c.mp4` |
| `Importer.TimeOrderExample` | video-edit.py:63-64 | with `t(c) < t(a) < t(b)`, time order gives `c.mp4, a.mp4, b.mp4` |
| `Clip.Decide` | video-edit.py:47-54 | no resize iff the clip already has the size for its orientation; otherwise width 1920 exactly for landscape clips whose width differs, and height 1080 exactly for the others whose height differs |
| `Clip.SquareIsPortrait` | video-edit.py:47-54 | a square clip is resized to height 1080 unless its height is already 1080 |
| `Clip.ScaledKeepsOrientation` | video-edit.py:47-54 | carrying out the decision with the aspect ratio kept exactly reaches the target dimension and keeps the clip's orientation |
| `Clip.NormalizeIdempotent` | video-edit.py:47-54 | after the decided resize, with the orientation kept, the rule asks for no further resize |
| `Cli.Assign` | video-edit.py:141-156 | assigning one configuration variable sets it to the argument and keeps every other variable |
| `Cli.ShortFlagsDispatch` | video-edit.py:141-156 | `-b -c -d -g -l -m -o -v` each reach their own branch |
| `Cli.LongOptionsDispatch` | video-edit.py:141-156 | where each registered long option is dispatched: `--gain` and `--music-dir` reach no branch |
| `Cli.StepAssignsOnlyItsVariable` | video-edit.py:141-156 | a dispatched option writes its argument to its own variable and changes no other |
| `Cli.HelpIffPresent` | video-edit.py:135-140 | the loop stops for help iff some option is `-h` or `--help`, whatever follows it |
| `Cli.UnassignedKeepsValue` | video-edit.py:105-156 | a variable that no option assigns keeps the value it had before the loop |
| `Cli.LastAssignmentWins` | video-edit.py:135-156 | when several options assign one variable, the last one's argument is its final value |
| `Cli.ShortAcceptedListed` | video-edit.py:117 | the short options getopt accepts are exactly `-h -l -v -m -d -c -b -g -o` |
| `Cli.LongNamesOfEntries` | video-edit.py:118-128 | the long-option entries name the options `--links-file` through `--help` |
| `Cli.LongAcceptedListed` | video-edit.py:118-128 | the long options getopt accepts are exactly those nine names |
| `Cli.AcceptedOptionsReachBranch` | video-edit.py:115-156 | every accepted option other than help reaches a dispatch branch, except `--gain` and `--music-dir`, which reach none |
| `Cli.GainAndMusicDirMisdispatched` | video-edit.py:115-156 | `--gain` and `--music-dir` are accepted but dispatch nowhere, and `--volume` and `--music-file` are never accepted |
| `Cli.LongGainAndMusicDirIgnored` | video-edit.py:141-156 | `--gain` and `--music-dir` leave the configuration unchanged |
| `Cli.Configure` | video-edit.py:104-160 | `main` up to the pipeline matches its specification: exit 2 on a parse error, exit 0 at the first help option, otherwise the defaults folded with the options and then the download decision |
| `Cli.DownloadIffNoMusicDir` | video-edit.py:158-160 | the loop ran to the end; the music is downloaded iff no option assigns the music directory; the file downloaded is the configured `links_path`; the music directory is then `getMusicDir` of that file |
| `Cli.DefaultLinksFileDownloaded` | video-edit.py:106 | with no `-l`/`--links-file` option, the file downloaded is `cwd + "/files/music/links.txt"` |
| `Cli.LastLinksFileDownloaded` | video-edit.py:149-150 | with `-l`/`--links-file` options, the file downloaded is the argument of the last one |
| `Cli.LastMusicDirUsed` | video-edit.py:151-160 | when the music directory is given, nothing is downloaded and the last directory given is used as it is |
| `Cli.ExitStatuses` | video-edit.py:130-140 | a parse error gives exit status 2, and the outcome is exit status 0 iff a help option is present |

## Left out

- Decoding, resizing, loudness normalisation, volume scaling, concatenation, mixing and encoding (`VideoFileClip`, `AudioFileClip`, `resize`, `audio_normalize`, `volumex`, `concatenate_videoclips`, `CompositeAudioClip`, `set_duration`, `set_audio`, `write_videofile`) are calls into the media library and are not modelled. This covers `joinVideoMusic` apart from its filename split, and the `map(AudioFileClip, ...)` and `map(importClip, ...)` steps of the imports.
- `downloadMusic` and its downloader options (video-edit.py:12-29) are network I/O through a library. Reading the links file with `open` is part of `downloadMusic` and is not modelled either. The model only decides whether it runs and on which links file (`Cli.Plan.download`).
- Dafny's `string` holds Unicode scalar values, so a file name that `os.listdir` returns with lone surrogates (bytes that do not decode) cannot be represented. The string order and `endswith` are exact for every other name.
- `os.listdir`, `os.path.getmtime` and `os.getcwd` are modelled by their results, given as inputs: a listing, a map of times, and a working-directory string. `os.chdir` and its failure on an empty directory part are not modelled.
- getopt's tokenising of the command line, including abbreviated long options, is not modelled. Its output is an input, either a sequence of (option, argument) pairs or a parse error. The non-option arguments it returns are ignored by `main` and are not modelled.
- `float(arg)` for the gain is not evaluated. The gain is carried as the argument text (`Cli.GainValue`), so a `ValueError` on a non-numeric gain is not modelled. The help and exit-status lemmas (`Cli.HelpIffPresent`, `Cli.ExitStatuses`) therefore assume that every `-g` argument before the help option parses as a float: for `-g abc -h` the program stops with an uncaught `ValueError` (exit status 1, no usage text), while the model gives `Exit(0)`. The gain arithmetic on audio is floating point and is left out too.
- Modification times are modelled as exact reals rather than as floating-point numbers.
- Python's `list.sort` is Timsort on a list. The model sorts an array in place by stable insertion. `Ordering.StableSortIsSort` shows that every stable sort gives that same result.
- `Clip.ScaledKeepsOrientation` scales with exact rational arithmetic. How the media library rounds the other dimension is not visible, so `Clip.NormalizeIdempotent` takes "the orientation is kept" as a hypothesis.
- `print` output, the usage text, and the fixed export settings (30 fps, audio bitrate `3200k`) only reach the console or the encoder.
