# MiniTemplator template cache

MiniTemplator is a template engine. Parsing a template turns its text into a structure, and
the condition flags active at parse time decide which conditional regions the structure keeps.
`MiniTemplatorCache` keeps parsed templators in memory so that each template is read and
parsed only once per key: the template text or file name, plus the condition flags in
iteration order. This project models that cache and proves what
it does:

- **Key derivation** (`TemplatorCache.CacheKey`, computed by the loop in
  `TemplatorCache.GenerateCacheKey`). The key starts with the template text if there is one.
  Otherwise it starts with the file name. After that, each condition flag adds `'|'` and its
  upper-cased name, in iteration order. A specification with neither text nor file name fails
  with an `IllegalArgumentException`.
- **Lookup-or-insert** (`TemplatorCache.MiniTemplatorCache.Get`). It derives the key and looks
  it up. On a miss it builds a templator and stores it. It always returns a reset clone of the
  stored templator. Its postconditions tie the stored structures to the specification function
  `TemplatorCache.GetStep`, and the lemmas about `GetStep` state the cache's guarantees.
- **Clear** (`TemplatorCache.MiniTemplatorCache.Clear`) empties the cache.

The templator itself (`Templator.MiniTemplator`) is external to the cache. It is modelled as
an object holding an immutable parsed `Structure` and a mutable `BindingState`. It has a
creation step that may fail and a `CloneReset` that keeps the structure and clears the bindings.
Reading a template is input and output, and the parser is outside this model, so the outcome
of reading and parsing enters `Get` as a parameter, `construction`: what reading and parsing
the template would give on this call. `Get` uses it
only on a miss.

Files:
- `wrappers.dfy`: `Option` and `Result`, standing for Java's null references and exceptions.
- `text.dfy`: upper-casing of strings (ASCII letters only).
- `templator.dfy`: the template specification, the failures, and the templator object.
- `cache.dfy`: cache keys, the `GetStep` specification and its lemmas, and the cache class.

Flags are not sorted: the key follows the collection's iteration order
(`MiniTemplatorCache.java:76-78`), so flags are a `seq<string>`, and `CacheKeyFlagOrderMatters`
proves that order changes the key.

Two proved properties of the key are worth knowing about. The key does not separate the
template from its flags: text `a|B` without flags has the same key as text `a` with flag `b`
(`CacheKeyBarCollision`). Inline text equal to a file name also shares that file's key
(`CacheKeyTextFileNameCollision`). In both cases, once a request for the other specification has succeeded, and until
the cache is cleared, a request for this one returns a reset clone of the templator built for
the other and parses nothing. When neither the text or file name nor any flag contains `'|'`, equal keys
do mean the same text or file name and the same flags up to letter case
(`CacheKeyDeterminesSource`).

## Model

| member | source | states |
|---|---|---|
| `Text.UpperCase` | trunk/src/main/java/biz/source_code/miniTemplator/MiniTemplatorCache.java:78 | Upper-casing a flag keeps its length |
| `Text.UpperCaseAt` | trunk/src/main/java/biz/source_code/miniTemplator/MiniTemplatorCache.java:78 | Each character of the upper-cased flag is the upper-case form of the character at the same position |
| `Text.UpperCaseEqualIff` | trunk/src/main/java/biz/source_code/miniTemplator/MiniTemplatorCache.java:78 | Two flags have the same upper-cased form if and only if they differ only in letter case |
| `Text.UpperCaseKeeps` | trunk/src/main/java/biz/source_code/miniTemplator/MiniTemplatorCache.java:78 | Upper-casing neither adds nor removes a non-letter such as the separator bar |
| `Templator.MiniTemplator.Create` | trunk/src/main/java/biz/source_code/miniTemplator/MiniTemplatorCache.java:63 | Building a templator fails exactly when reading or parsing fails, with that failure; otherwise it gives a new templator over the parsed structure with empty bindings |
| `Templator.MiniTemplator.CloneReset` | trunk/src/main/java/biz/source_code/miniTemplator/MiniTemplatorCache.java:65 | The clone is a new object with the same parsed structure and empty bindings |
| `TemplatorCache.GenerateCacheKey` | trunk/src/main/java/biz/source_code/miniTemplator/MiniTemplatorCache.java:67-79 | The buffer-and-loop construction gives exactly `CacheKey(spec)`: the text or else the file name, then the separator bar plus the upper-cased flag per flag, or the IllegalArgument failure |
| `TemplatorCache.FlagSuffixCons` | trunk/src/main/java/biz/source_code/miniTemplator/MiniTemplatorCache.java:76-78 | The first flag's separator bar and upper-cased name come first, followed by the rest's part |
| `TemplatorCache.FlagSuffixStartsWithBar` | trunk/src/main/java/biz/source_code/miniTemplator/MiniTemplatorCache.java:77 | The flags' part of the key is empty or starts with the separator bar |
| `TemplatorCache.FlagSuffixIgnoresCase` | trunk/src/main/java/biz/source_code/miniTemplator/MiniTemplatorCache.java:75-78 | Flag lists that agree flag by flag up to letter case give the same part of the key |
| `TemplatorCache.FlagSuffixHead` | trunk/src/main/java/biz/source_code/miniTemplator/MiniTemplatorCache.java:76-78 | Equal parts of two bar-free flag lists agree on the first flag up to case and on the rest |
| `TemplatorCache.FlagSuffixInjective` | trunk/src/main/java/biz/source_code/miniTemplator/MiniTemplatorCache.java:75-78 | Bar-free flags are recovered from their part of the key: same number, and pairwise equal up to case |
| `TemplatorCache.CacheKeyFailsIffNoSource` | trunk/src/main/java/biz/source_code/miniTemplator/MiniTemplatorCache.java:69-74 | Key derivation fails if and only if both text and file name are absent, and then with IllegalArgument |
| `TemplatorCache.CacheKeyFromText` | trunk/src/main/java/biz/source_code/miniTemplator/MiniTemplatorCache.java:69-70 | With text present the key begins with the text, and changing the file name does not change the key |
| `TemplatorCache.CacheKeyFromFileName` | trunk/src/main/java/biz/source_code/miniTemplator/MiniTemplatorCache.java:71-72 | Without text but with a file name, key derivation succeeds and the key begins with the file name |
| `TemplatorCache.CacheKeyWithoutFlags` | trunk/src/main/java/biz/source_code/miniTemplator/MiniTemplatorCache.java:75 | With no flag collection, or an empty one, the key is just the text or file name |
| `TemplatorCache.CacheKeyAddFlag` | trunk/src/main/java/biz/source_code/miniTemplator/MiniTemplatorCache.java:76-78 | One more flag at the end of the iteration extends the key by the separator bar and the flag upper-cased |
| `TemplatorCache.CacheKeyIgnoresFlagCase` | trunk/src/main/java/biz/source_code/miniTemplator/MiniTemplatorCache.java:75-78 | Specifications whose flags differ only in letter case have the same key |
| `TemplatorCache.CacheKeyDeterminesSource` | trunk/src/main/java/biz/source_code/miniTemplator/MiniTemplatorCache.java:67-79 | Without bars anywhere, equal keys mean the same text or file name and the same flags up to letter case |
| `TemplatorCache.CacheKeyFlagOrderMatters` | trunk/src/main/java/biz/source_code/miniTemplator/MiniTemplatorCache.java:76 | Flags are not sorted: `["a","b"]` and `["b","a"]` give different keys |
| `TemplatorCache.CacheKeyBarCollision` | trunk/src/main/java/biz/source_code/miniTemplator/MiniTemplatorCache.java:69-78 | Text `a` + bar + `B` without flags and text `a` with flag `b` have the same key |
| `TemplatorCache.CacheKeyTextFileNameCollision` | trunk/src/main/java/biz/source_code/miniTemplator/MiniTemplatorCache.java:69-72 | Inline text equal to a file name has the same key as that file, for any flags |
| `TemplatorCache.GetWithoutSourceFails` | trunk/src/main/java/biz/source_code/miniTemplator/MiniTemplatorCache.java:60-74 | A request naming neither text nor file fails with IllegalArgument and leaves the cache unchanged |
| `TemplatorCache.GetMissInserts` | trunk/src/main/java/biz/source_code/miniTemplator/MiniTemplatorCache.java:61-64 | On a miss with a successful build, the key is bound to the new structure, the result is that structure, and every other entry is unchanged |
| `TemplatorCache.GetHitUnchanged` | trunk/src/main/java/biz/source_code/miniTemplator/MiniTemplatorCache.java:61-62 | On a hit the result is the stored structure whatever a build would give, and the cache is unchanged |
| `TemplatorCache.GetFailedConstructionStoresNothing` | trunk/src/main/java/biz/source_code/miniTemplator/MiniTemplatorCache.java:63-64 | A failed read or parse is passed on and stores no entry |
| `TemplatorCache.GetOnlyAdds` | trunk/src/main/java/biz/source_code/miniTemplator/MiniTemplatorCache.java:58-65 | A request never removes or replaces an entry |
| `TemplatorCache.GetResultIsCached` | trunk/src/main/java/biz/source_code/miniTemplator/MiniTemplatorCache.java:61-65 | After a successful request the returned structure is the one stored under the request's key |
| `TemplatorCache.GetTwiceSameAsOnce` | trunk/src/main/java/biz/source_code/miniTemplator/MiniTemplatorCache.java:58-65 | A repeated request leaves the same cache and result as one request; after a success the repeat is a hit whatever its build would give |
| `TemplatorCache.GetAfterClearMisses` | trunk/src/main/java/biz/source_code/miniTemplator/MiniTemplatorCache.java:84-85 | On the empty cache that `clear` leaves, every request is a miss whose result is the build's outcome |
| `TemplatorCache.MiniTemplatorCache.constructor` | trunk/src/main/java/biz/source_code/miniTemplator/MiniTemplatorCache.java:47-48 | A new cache is empty |
| `TemplatorCache.MiniTemplatorCache.Get` | trunk/src/main/java/biz/source_code/miniTemplator/MiniTemplatorCache.java:58-65 | The stored structures and the outcome are those of `GetStep`; a success returns a new, reset clone that is none of the stored templators; stored templators keep their identity, and a new entry is a new object |
| `TemplatorCache.MiniTemplatorCache.Clear` | trunk/src/main/java/biz/source_code/miniTemplator/MiniTemplatorCache.java:84-85 | The cache is empty afterwards |

## Left out

- The `synchronized` on `get` and `clear` only gives mutual exclusion, so the operations are modelled one after another.
- The template parser and renderer are not part of this model. The parsed `Structure` is a list of placeholder nodes that is only carried around, and the binding state records only variable values; the outcome of reading and parsing enters `Get` as the `construction` parameter. The file reading and charset handling behind it are input and output.
- `Text.UpperCase`: maps only ASCII letters. Java's `String.toUpperCase` depends on the locale and can change a string's length (for example `ß` becomes `SS`).
- A null element inside the flag collection makes `flag.toUpperCase()` throw a `NullPointerException`. Flags are `seq<string>` here, so elements are never null.
- `get(null)` throws a `NullPointerException` at `MiniTemplatorCache.java:69`. A `TemplateSpecification` value cannot be null, so this case is not modelled.
- The cached templators are assumed to be changed by no one else. `Valid` says they keep their empty bindings. In the source this holds because the cache never hands them out. No postcondition depends on `Valid`, because `CloneReset` clears the bindings anyway; it only documents that stored templators stay untouched.
- The `HashMap` hashing and the `StringBuilder` capacity (128) do not affect behaviour and are not modelled.
- `src/examples/Example2.java` is a demo caller of the engine's variable and block API. It has no cache logic.
