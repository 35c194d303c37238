# Glua: a verified model of the Lua-template renderer

Glua renders HTML by running Lua templates from Go, in `lua.go`. This project
models its four parts in Dafny and proves properties of them:

- **The value converter** (`toLua`, `mapToTable`, `sliceToTable`). It turns a Go
  value into a Lua value. Numbers become Lua numbers, and strings and `[]byte`
  become Lua strings. Maps become tables under string keys. Slices become tables
  under the integer keys 0 to n-1. Anything else becomes the number 0. A map
  key that is not a `string` panics, because of the unchecked type assertion.
- **The module-name resolver** (the `path.Clean` / `path.Split` / `path.Join`
  block in `Render`). `Clean`, `Split` and `Join` follow the lexical rules of
  Go's `path` package.
- **The pool of Lua states** (`Lua`, `New`, `newLua`, `getLua`, `putLua`). A
  class holds the buffer of idle states (its capacity is 4), the `reuse` flag,
  the set of closed states, a counter that names new states, and the ghost set
  of states currently handed out.
- **`Render`**. It acquires a state, requires the resolved module, calls the
  template on the converted data, and calls the Lua `render` helper with the
  `write` function that streams into the caller's writer. It adds a newline on
  success. The state is released on every exit path.

Modules: `Values` (values.dfy), `GoPath` (gopath.dfy), `Names` (names.dfy),
`Sink` (sink.dfy) and `Glua` (glua.dfy).

The Lua interpreter is not modelled. `Runtime` is a value of uninterpreted
functions: `require` of a path, the call of a template function, the call of
the `render` helper, and `ToString` of a stack value. `require`, the template
call and the `render` helper depend on the state they run in. A `render` call
is described by the argument lists of the `write` calls it makes, in order, and
by the error it ends with.

Three behaviours of `lua.go` are easy to misread:

- Slice elements sit at integer keys 0 to n-1, because `RawSetInt(i, ...)`
  starts at `i = 0`. They do not sit at 1 to n. `SliceBorder` shows the
  consequence: Lua's length operator sees n-1 elements, and element 0 lies
  outside the range that `ipairs` walks.
- A trailing slash does not lead to an `index` module. `path.Clean` removes the
  slash before `path.Split` looks for an empty leaf, so `"optional/"` resolves
  to `"optional"`. The `index` branch fires only for names that clean to `"/"`
  (`ResolveOptional`, `ResolveIgnoresTrailingSlash`).
- A non-string map key does not degrade to a fallback value. The `.(string)`
  assertion panics. `Render` then ends in a panic after releasing its state,
  since the deferred `putLua` still runs.

## Model

| member | source | states |
|---|---|---|
| `Values.ToLua` | lua.go:46-76 | returns exactly `Marshal(v)`: the conversion of a value whose maps all have string keys, and a panic otherwise |
| `Values.MapToTable` | lua.go:79-86 | visits the keys in any order; panics on a non-string key or a panicking value; otherwise gives the table holding each string key with its converted value |
| `Values.SliceToTable` | lua.go:89-95 | puts element i under integer key i from 0 up; panics if any element panics |
| `Values.ScalarCases` | lua.go:47-74 | int, int64, uint, uint64, float32 and float64 become a Lua number of the same value; string and `[]byte` become a Lua string with the same bytes and never a table; every other non-map, non-slice value becomes 0; none of them panics |
| `Values.SliceLayout` | lua.go:89-94 | a slice of n elements becomes a table whose keys are exactly the integers 0..n-1, with key i holding the conversion of element i |
| `Values.SliceBorder` | lua.go:91-92 | with 0-based keys, the only border of the table (Lua's `#`) is n-1 for n > 0 and 0 for n = 0 |
| `Values.MapLayout` | lua.go:79-86 | a string-keyed map becomes a table with one string key per map key and no other key, each holding the converted value; the table has as many entries as the map |
| `Values.Panics` | lua.go:83 | a non-string key panics, and a panic in any element or value makes the whole conversion panic |
| `GoPath.Split` | lua.go:143 | the directory and file parts concatenate back to the path; the file part holds no slash; the directory part is empty or ends in a slash |
| `GoPath.SplitFileEmpty` | lua.go:143-144 | the file part is empty exactly when the path is empty or ends in a slash |
| `GoPath.Clean` | lua.go:142 | a cleaned path is never empty and ends in a slash only when it is exactly "/" |
| `GoPath.CleanIdempotent` | lua.go:142 | cleaning a cleaned path changes nothing |
| `GoPath.CleanIgnoresTrailingSlash` | lua.go:142 | a non-empty path with a slash appended cleans to the same path |
| `GoPath.Join` | lua.go:145 | the result is empty only when both parts are, and any other result is already clean |
| `GoPath.JoinRootElem` | lua.go:145 | joining "/" and a plain element (not "." or "..") gives "/" followed by the element |
| `GoPath.JoinRelativeElem` | lua.go:145 | joining a clean relative directory and a plain element puts exactly one slash between them |
| `GoPath.CleanOfNormal` | lua.go:142 | a relative path made of elements that are neither "." nor misplaced ".." is its own cleaned form |
| `Names.Resolve` | lua.go:142-146 | the result is the cleaned name, except that a name cleaning to "/" gives "/index"; it is never empty and never ends in a slash |
| `Names.RootIndex` | lua.go:145 | joining "/" and "index" gives "/index" |
| `Names.ResolveIdempotent` | lua.go:142-146 | resolving a resolved name changes nothing |
| `Names.ResolveIgnoresTrailingSlash` | lua.go:142-146 | a non-empty name with a trailing slash resolves like the name without it |
| `Names.ResolveOptional` | lua.go:142-146 | "optional/" resolves to "optional", which differs from the resolution of "optional/index" |
| `Names.ResolveOptionalIndex` | lua.go:142-146 | "optional/index" resolves to itself |
| `Names.ResolveEmptyAndRoot` | lua.go:142-146 | "" resolves to "." and "/" to "/index" |
| `Sink.Writer.Write` | lua.go:134 | a write appends its bytes to what was written before |
| `Sink.WriteArgs` | lua.go:128-138 | writes the string form of arguments 1..n, left to right, after what was already written, and returns 0 |
| `Sink.StringifiedAppend` | lua.go:132-135 | splitting the arguments over two calls writes the same bytes as one call |
| `Sink.EmittedIsOneCall` | lua.go:128-138 | any sequence of `write` calls writes exactly the bytes of one call with all their arguments in order: no buffering, no reordering |
| `Glua.Run` | lua.go:142-193 | the first failing step decides the outcome; require failure stops at Loading; a panic is possible only once require has succeeded and exactly when the data's conversion panics; nothing is written before the `render` call; a failing `render` call keeps its bytes and adds no newline; success writes the sink's bytes plus one newline |
| `Glua.RunSeesResolvedName` | lua.go:142-153 | two names with the same resolved path render identically (a congruence fact: `require` sees only the resolved path) |
| `Glua.LoadFailureStops` | lua.go:149-157 | when `require` fails, the template and `render` helper have no influence, and the result is that error with nothing written |
| `Glua.TemplateFailureStops` | lua.go:164-172 | when the template call fails or the data's conversion panics, the `render` helper has no influence and nothing is written |
| `Glua.SuccessEndsInOneNewline` | lua.go:181-193 | on success the output is the string forms of all `write` arguments in order, followed by exactly one newline |
| `Glua.WriteAll` | lua.go:181-185 | performing the `write` calls of a `render` call appends exactly their bytes to the writer |
| `Glua.RunSteps` | lua.go:142-193 | the steps after acquisition return `Run`'s outcome and append `Run`'s bytes to the writer |
| `Glua.Lua.New` | lua.go:21-26 | a fresh holder has reuse off, an empty buffer and no state created, handed out or closed |
| `Glua.Lua.WithReuse` | lua.go:15-18 | a holder with the chosen reuse policy starts empty |
| `Glua.Lua.NewLua` | lua.go:28-35 | a new state gets a number never used before; nothing else changes |
| `Glua.Lua.GetLua` | lua.go:98-105 | hands out the front idle state and removes it from the buffer, or a freshly created state if the buffer is empty; the state handed out was not handed out or closed before; the buffer stays within capacity with no state twice |
| `Glua.Lua.PutLua` | lua.go:108-118 | with reuse off the state is closed and the buffer stays empty; with reuse on it joins the back of the buffer if there is room and is closed when the buffer holds 4 |
| `Glua.Lua.Render` | lua.go:123-193 | returns `Run`'s outcome on the acquired state and appends `Run`'s bytes; the state is released on every path: closed without reuse, back in the buffer with reuse |
| `Glua.TwoRendersWithoutReuse` | lua.go:109-112 | two renders on a holder from `New` create states 0 and 1, close both, and leave the buffer empty |
| `Glua.TwoRendersWithReuse` | lua.go:113-117 | with reuse on, the second render gets back the state released by the first, so one state is created and none is closed |

## Left out

- The Lua interpreter: `lua.NewState`, `OpenLibs`, the `require("runtime")` bootstrap, the global `require` and `render`, `L.ToString`, and the stack handling (`Get(-1)`, `Pop`, `GetTop`). These are the uninterpreted functions of `Runtime`. A state is only a number.
- Concurrency of the `unused` channel. `getLua` and `putLua` are modelled as sequential try-take and try-put on a sequence.
- Floating point. Numbers are reals. The model does not capture the rounding of large 64-bit integers in `float64(t)`, nor NaN and infinities.
- The `fmt.Println("unknown type")` diagnostic written for unsupported values. It is output to the process's standard output, not part of the result.
- The results of `w.Write`. The source ignores them, and the model's writer always accepts every byte.
- Cyclic Go values, on which `toLua` would not terminate. Host values in the model are finite trees.
- The identity of Lua tables. A table built by `mapToTable` or `sliceToTable` is modelled as the map it holds once filled, not as an object updated in place.
- Lua strings and Go strings are byte sequences. Path names are character strings, and only '/' and '.' matter to the path rules.
- The CLI in examples/main.go, which selects a template from `os.Args` and panics on error.
- `Glua.Lua.WithReuse`: the source offers no way to set `reuse`. This constructor stands for a struct literal written inside the package, so that the reuse branch of `putLua` can be reached.
