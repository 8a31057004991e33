# MacroConsole: trace formatting and shadow copying, in Dafny

This project models the two utilities of MacroConsole and proves what they promise.

- **ConsoleApplicationTraceListener** (`trace_listener.dfy`, module `TraceListener`) turns each trace
  event into exactly one line on the standard error stream. `Format(kind, message, depth)` is the
  pure formatting rule:
  - Information and Verbose lines are the message alone.
  - Start lines are `depth` dashes, then `"> "`, then the message.
  - Stop lines first rewrite the message to `"Finished "` plus the message with its first
    character lower-cased. They then take the Start prefix.
  - Every other kind gets `"[" + name + "] "` before the message.

  The class `ConsoleApplicationTraceListener` holds the error stream as its completed lines and
  the text written since the last line break. Its `TraceEvent` method runs the source's switch
  step by step and is proved to append exactly the line `Format` gives.
- **ShadowCopier** (`shadow_copier.dfy`, module `ShadowCopier`) has two parts.
  - `PreloadFrom` walks the reference graph with a visited set that only grows.
    `PreloadReferencedAssemblies` starts that walk from the calling assembly.
  - `ProgramDirectory.ShadowCopy` then deletes and recreates `_shadow`, moves every top-level
    file into it and copies each one back.

  The walk is proved to load exactly the assemblies reachable from the root, each one once. It
  succeeds exactly when every reachable name can be loaded. After relocation the shadow directory
  holds the original files. The top level holds fresh copies with the same names and contents,
  and nothing holds those copies open.

Modelling choices:
- A null message is `None`.
- The logical-operation stack is reduced to its size, `depth`.
- `ToLowerInvariant` on one character is modelled as ASCII lower-casing.
- Reflection is replaced by a reference map `refs: map<Name, seq<Name>>`. A name that is not a
  key of the map cannot be loaded: `Assembly.Load` fails.
- The program's directory is a class with these fields:
  - its top-level files, each with its bytes and a flag saying whether the process has it open;
  - the names of its other subdirectories;
  - the files of `_shadow`, when that directory exists.
- The `HashSet` that the source shares across recursive calls is passed into each recursive call
  and returned from it. Each call receives the set as the previous call left it.
- Where the source throws, the model returns an error value.
- Stop with an empty message: `Substring(0, 1)` on the empty string throws, so `Format` returns
  `Err(SubstringOutOfRange)` and `TraceEvent` writes nothing.
- Loading an assembly binds the process to its file. A map `assemblyFiles` says which top-level
  file each assembly is loaded from; an assembly not in it lives elsewhere. The directory also
  records the assemblies the process has already loaded (`processAssemblies`). Loading one of
  those again opens nothing new.
- The model assumes a file system that locks open files. On such a file system
  `Directory.Delete` fails on a shadow directory that still holds an open file, and `ShadowCopy`
  returns `Fail(ShadowInUse)`.
- `ProgramDirectory.Restart` has no counterpart in the source. It stands for the program exiting
  and starting again, which releases every open file. It is used only to state what a second
  relocation after a restart does.

## Model

| member | source | states |
|---|---|---|
| `TraceListener.Normalize` | MacroConsole/ConsoleApplicationTraceListener.cs:97 | a null message becomes the empty string; any other message is kept as it is |
| `TraceListener.Dashes` | MacroConsole/ConsoleApplicationTraceListener.cs:128 | `new string('-', n)`: exactly `n` characters, every one a dash |
| `TraceListener.ToLower` | MacroConsole/ConsoleApplicationTraceListener.cs:106 | an upper-case ASCII letter becomes its lower-case letter; every other character is unchanged |
| `TraceListener.EventTypePrefix` | MacroConsole/ConsoleApplicationTraceListener.cs:120-123 | the prefix is `[`, then the kind's name, then `] `; it is 3 characters longer than the name |
| `TraceListener.LogicalOperationPrefix` | MacroConsole/ConsoleApplicationTraceListener.cs:126-129 | the prefix has length depth+2: `depth` dashes followed by `"> "` |
| `TraceListener.FinishedMessage` | MacroConsole/ConsoleApplicationTraceListener.cs:106 | fails exactly on the empty message; otherwise the result is `"Finished "`, then the lower-cased first character, then the rest of the message |
| `TraceListener.Format` | MacroConsole/ConsoleApplicationTraceListener.cs:89-117 | fails exactly for Stop with an empty or null message; Information/Verbose give the message unchanged; Start/Stop give `depth` dashes, `"> "`, then the message (rewritten for Stop); every other kind gives `"[" + name + "] "` + message |
| `TraceListener.NullFormatsAsEmpty` | MacroConsole/ConsoleApplicationTraceListener.cs:97 | for every kind and depth, a null message formats exactly as `""` does |
| `TraceListener.MessageEndsLine` | MacroConsole/ConsoleApplicationTraceListener.cs:98-116 | for every kind except Stop, formatting succeeds and the original message is a suffix of the line |
| `TraceListener.DepthRecoveredFromLine` | MacroConsole/ConsoleApplicationTraceListener.cs:108-110 | the number of leading dashes of a Start or Stop line is the nesting depth |
| `TraceListener.ParseTaggedInverts` | MacroConsole/ConsoleApplicationTraceListener.cs:111-113 | for any name without a closing bracket and any message, parsing `"[" + name + "] " + message` gives back exactly that name and message |
| `TraceListener.TaggedLineRoundTrip` | MacroConsole/ConsoleApplicationTraceListener.cs:111-113 | parsing a line of any other kind gives back the kind's name, the kind itself and the original message |
| `TraceListener.KindNamedInverts` | MacroConsole/ConsoleApplicationTraceListener.cs:122 | no two kinds print with the same name, so the printed name identifies the kind |
| `TraceListener.ConsoleApplicationTraceListener.constructor` | MacroConsole/ConsoleApplicationTraceListener.cs:43-46 | a new listener starts with an empty error stream |
| `TraceListener.ConsoleApplicationTraceListener.WriteLine` | MacroConsole/ConsoleApplicationTraceListener.cs:49-53 | completes exactly one line: the pending text followed by the message |
| `TraceListener.ConsoleApplicationTraceListener.Write` | MacroConsole/ConsoleApplicationTraceListener.cs:56-60 | adds the message to the pending text; no line is completed |
| `TraceListener.ConsoleApplicationTraceListener.TraceEvent` | MacroConsole/ConsoleApplicationTraceListener.cs:89-117 | fails exactly when `Format` fails, and then writes nothing; otherwise writes exactly one line, the one `Format` gives |
| `ShadowCopier.PreloadFrom` | MacroConsole/ShadowCopier.cs:78-87 | the loaded set only grows; each newly loaded name appears once in the load order and is reachable from the assembly; on success every direct reference is loaded and every newly loaded name is loadable, with all its references loaded; on failure the name that failed is newly loaded and is not loadable |
| `ShadowCopier.PreloadReferencedAssemblies` | MacroConsole/ShadowCopier.cs:71-75 | starting from an empty set, the walk succeeds exactly when every reachable name can be loaded; it then loads exactly the names reachable from the root's references, each once; the root is loaded only when some chain of references leads back to it |
| `ShadowCopier.ClosedSetHoldsReachable` | MacroConsole/ShadowCopier.cs:81-86 | a set that contains the root's references and is closed under references contains every reachable name |
| `ShadowCopier.ReachableStep` | MacroConsole/ShadowCopier.cs:85 | whatever is reachable from a referenced assembly is reachable from the assembly that references it |
| `ShadowCopier.ShadowDirectory` | MacroConsole/ShadowCopier.cs:50-51 | the shadow directory is the original directory's child named `_shadow` |
| `ShadowCopier.ShadowDirectoryDistinct` | MacroConsole/ShadowCopier.cs:17-18 | distinct program directories have distinct shadow directories, and the shadow directory is never the program directory itself |
| `ShadowCopier.FreshCopies` | MacroConsole/ShadowCopier.cs:62-67 | copies have the same names and bytes as the originals, and none is held open |
| `ShadowCopier.FilesOf` | MacroConsole/ShadowCopier.cs:31-32 | the files that loading some assemblies opens: exactly the files of those assemblies that can be loaded and live in the program directory |
| `ShadowCopier.AlsoOpened` | MacroConsole/ShadowCopier.cs:31-32 | opening more files keeps every name and every content; a file is open afterwards exactly when it was open before or is one of the newly opened files |
| `ShadowCopier.ProgramDirectory.LoadAssemblies` | MacroConsole/ShadowCopier.cs:48 | the files of the loadable assemblies the process had not yet loaded become held open; those assemblies are recorded as loaded; the shadow directory and subdirectories do not change |
| `ShadowCopier.ProgramDirectory.DeleteShadow` | MacroConsole/ShadowCopier.cs:52 | succeeds exactly when no shadow file is held open; then the shadow directory and all its files are gone; otherwise nothing changes; the top level and subdirectories never change |
| `ShadowCopier.ProgramDirectory.CreateShadow` | MacroConsole/ShadowCopier.cs:53 | a missing shadow directory is created empty; an existing one is kept |
| `ShadowCopier.ProgramDirectory.MoveToShadow` | MacroConsole/ShadowCopier.cs:55-60 | the file leaves the top level and appears in the shadow directory under the same name; the moved entry is the same file, still open if it was |
| `ShadowCopier.ProgramDirectory.MoveAllToShadow` | MacroConsole/ShadowCopier.cs:55-60 | from an empty shadow directory: afterwards the shadow holds exactly the former top-level files, each unchanged, and the top level is empty |
| `ShadowCopier.ProgramDirectory.CopyAllBack` | MacroConsole/ShadowCopier.cs:62-67 | from an empty top level: afterwards the top level holds a fresh copy of every shadow file, with the same name and bytes and not held open; the shadow is unchanged |
| `ShadowCopier.ProgramDirectory.CopyFromShadow` | MacroConsole/ShadowCopier.cs:62-67 | a new top-level file appears with the shadow file's name and bytes, not held open; the shadow is unchanged |
| `ShadowCopier.ProgramDirectory.ShadowCopy` | MacroConsole/ShadowCopier.cs:43-68 | succeeds exactly when three things hold: preloading succeeds, no file of an existing shadow directory is held open, and no file is named `_shadow`; each failure names its cause: `PreloadFailed` exactly when some reachable name cannot be loaded (and the error names such a reachable name), else `ShadowInUse` exactly when an existing shadow file is held open, else `ShadowNameTaken` exactly when a file is named `_shadow`; the preload always holds open the files of the newly loaded assemblies; on success every reachable assembly is loaded, `_shadow` holds exactly the former top-level files (those files now open too), the top level holds fresh copies with the same names and bytes, and subdirectories are untouched; a failure moves no file |
| `ShadowCopier.ProgramDirectory.Restart` | MacroConsole/ShadowCopier.cs:27-28 | after the program exits and starts again, no shadow file is held open and no assembly is loaded yet; the top-level files the new process opens are held open; names and contents do not change |
| `ShadowCopier.RelocateRestartRelocate` | MacroConsole/ShadowCopier.cs:27-32 | relocation, restart and a second relocation all succeed; the second run clears the shadow the first left; both directories end with the original names and contents; no top-level file is held open; the shadow holds open exactly the files the restarted process opened and the files of the assemblies the second run preloaded |
| `ShadowCopier.RelocateTwiceWithoutRestart` | MacroConsole/ShadowCopier.cs:31-52 | without a restart, a second relocation fails with `ShadowInUse` whenever the first moved an open file into the shadow: one open from the start, or the file of an assembly the first run preloaded; the shadow keeps the first run's result, and the top-level copies stay free |
| `ShadowCopierExample.RelocateAppAndLib` | MacroConsole/ShadowCopier.cs:43-68 | with `app.bin` (the running program, held open) and `lib.dat`, and no referenced assembly: `_shadow` holds exactly both files as they were; the top level holds the same names with the same bytes, and nothing holds those open |

## Left out

- The `TraceEvent(…, format, params object[] args)` overload: it formats through
  `StringExtensions.FormatInvariant`, which is not part of this model.
- The `TraceListener` base class, `TraceEventCache`, the source name and the event id: only
  the logical-operation count is used, and it is a parameter.
- Writing to the console: the error stream is the listener's `lines` and `pending` fields. A
  message that itself contains line breaks still counts as one line.
- `ToLower`: culture-invariant lower-casing of non-ASCII characters is not modelled; only ASCII
  letters change.
- An event-type value outside the ten named kinds, which the runtime prints as a number, is not
  modelled.
- Reflection: `Assembly.GetCallingAssembly`, `GetReferencedAssemblies`, `Assembly.Load` and
  `Location` are replaced by the reference map, the root name and the directory's `path`.
  Assemblies are identified by simple name only.
- Directory enumeration: the model snapshots the file names before each loop and visits them in
  an unspecified order. It does not model the lazy enumeration that `Directory.EnumerateFiles`
  performs.
- File-system failures other than an unloadable assembly, a file named `_shadow` and an open
  file in an existing shadow directory are not modelled. These include missing permissions, a
  failure partway through the moves, and a second instance racing on `_shadow`. A deletion that
  fails is modelled as deleting nothing, although a recursive delete may remove some files
  before it fails. The moves and copies are proved never to target an existing name, so
  `File.Move` and `File.Copy` would not refuse them.
- ShadowCopy: the files of the preloaded assemblies are opened together once the walk ends, not
  one by one as each is loaded. When the walk fails, the assemblies loaded before the failure
  still hold their files open. Files opened by assemblies outside the program directory, and
  assemblies loaded lazily later, are not modelled.
- Paths: `Path.Combine` and `Path.GetFileName` are reduced to "the same name in the other
  directory". Nested contents of `_shadow` and of other subdirectories are not represented.
