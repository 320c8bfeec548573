# PrjRem password registry, modelled in Dafny

PrjRem keeps named secrets ("passwords") for one user. Its class `PrjRem`
holds a dictionary from key to secret, a configuration dictionary, and the
last error a lookup swallowed. It can:

- generate random secrets from a fixed 66-character alphabet (`sequence`);
- store a given or generated secret under a key (`make`);
- look a secret up by its key or by its position in the sorted key list
  (`retrieve`, `getSortedKeys`);
- set the location of the password file (`setPassLocation`).

The model is one Dafny module per concern:

- `Wrappers`: `Option` and `Result`, standing for Python's `None` returns and
  raised exceptions.
- `StringOrder`: Python's `<` on `str`, which is lexicographic order of code
  points. It is proved to be a strict total order.
- `SortedKeys`: `sorted()` of a set of keys. The result is proved to be
  strictly ascending, to hold exactly the keys, and to be the only such list.
- `PyInt`: `int(text)` in base 10 and `str(n)`, with the proof that
  `int(str(n)) == n`.
- `Charset`: `CHAR_SET`, `CHAR_SET_LENGTH` and the random oracle standing for
  `SystemRandom.randint`.
- `Registry`: the class `PrjRem` with its fields and methods, and the pure
  function `Resolve`. `Resolve` says which key a lookup settles on.

The random source is a method whose result is any integer in the requested
inclusive range. The user's home directory, which `Path.home()` supplies, is
a constructor parameter.

## Model

| member | source | states |
|---|---|---|
| `Charset.CharSetSize` | prjrem.py:7-8 | `CHAR_SET` has 66 characters, and `CHAR_SET_LENGTH` is 65: the last valid index, not the length |
| `Charset.CharSetMembers` | prjrem.py:7 | a character is in `CHAR_SET` exactly when it is one of `!@#$`, an ASCII letter or an ASCII digit |
| `Charset.RandInt` | prjrem.py:28 | `randint(lo, hi)` returns an integer from `lo` to `hi`, both included |
| `Registry.PathHome` | prjrem.py:9 | `PATH_HOME` is the home directory followed by `/.prjrem` |
| `Registry.PrjRem.constructor` | prjrem.py:12-16 | a new registry has empty `config` and `passwords`, no `error` yet, and a default location of `<home>/.prjrem/.prjremDat` |
| `Registry.PrjRem.Sequence` | prjrem.py:26-29 | the result has exactly `length` characters (none when `length <= 0`), and each is a character of `CHAR_SET`, so every random index is in bounds |
| `Registry.PrjRem.Make` | prjrem.py:59-64 | the key set becomes the old keys plus `usr`; `usr` maps to `psw` when given, else to a 16-character secret over `CHAR_SET`; any earlier secret for `usr` is replaced; every other key keeps its secret; `config` and `error` are unchanged |
| `Registry.PrjRem.SetPassLocation` | prjrem.py:23-24 | `config` changes only at `"location"`, which becomes `path`; `passwords` and `error` are unchanged |
| `Registry.PrjRem.GetSortedKeys` | prjrem.py:19-21 | the list holds exactly the keys of `passwords`, as many as there are, in strictly ascending order and without duplicates |
| `SortedKeys.Sorted` | prjrem.py:21 | `sorted()` of a key set: as long as the set, holds exactly its elements, strictly ascending |
| `SortedKeys.SortedIsUnique` | prjrem.py:21 | every strictly ascending list holding exactly the keys equals `Sorted` of the keys |
| `SortedKeys.SortedRank` | prjrem.py:21 | position `i` of the sorted list holds the key that has exactly `i` keys below it |
| `StringOrder.Below` | prjrem.py:21 | the order `sorted()` uses on `str` keys: code points compared left to right, the first difference deciding, and a proper prefix sorting before the longer string |
| `StringOrder.BelowIrreflexive` | prjrem.py:21 | no string sorts before itself |
| `StringOrder.BelowTransitive` | prjrem.py:21 | the string order used by `sorted()` is transitive |
| `StringOrder.BelowTotal` | prjrem.py:21 | of two different strings, one sorts before the other |
| `PyInt.ParseInt` | prjrem.py:72 | `int(identifier)` in base 10: skips TAB to CR, SPACE and the Unicode spaces on both sides, reads an optional `+` or `-`, then ASCII digits with a single `_` allowed only between two digits, leading zeros accepted; anything else gives `None`, standing for `ValueError` |
| `PyInt.ParseShow` | prjrem.py:72 | `int(str(n)) == n` for every integer `n` |
| `PyInt.ParseIntSpaces` | prjrem.py:72 | `int()` skips whitespace around the number: `" 7\n"` reads as 7 |
| `PyInt.ParseIntSignUnderscore` | prjrem.py:72 | `int()` reads a `+` sign and a `_` between digits: `"+1_0"` reads as 10 |
| `PyInt.ParseIntZeros` | prjrem.py:72 | `int()` accepts leading zeros and `-0`: `"007"` reads as 7, `"-0"` as 0 |
| `PyInt.ParseIntRejects` | prjrem.py:72 | `int()` raises `ValueError` for `"1__0"`, `"_1"`, `"1_"`, `"- 1"`, the empty text, and a number preceded by the ASCII separator FS (U+001C) |
| `Registry.ListIndex` | prjrem.py:73 | list indexing `xs[i]` succeeds exactly when `-len(xs) <= i < len(xs)`, reading position `i`, or `len(xs) + i` for negative `i` |
| `Registry.Resolve` | prjrem.py:66-77 | an exact key resolves to itself before any number is tried; otherwise text `int()` rejects gives `ValueError`; a number `num` with `-len <= num < len` (in whatever form `int()` accepts, such as `"+0"`, `" 1"` or `"1_0"`) gives the sorted key at position `num`, or `len + num` when negative; any other number gives `IndexError`; any key reached is a key of `passwords` |
| `Registry.ResolveByPosition` | prjrem.py:71-73 | the text of a number `i` with `-len <= i < len`, when it is not itself a key, resolves to the sorted key at position `i`, counted from the end when `i` is negative |
| `Registry.ExactKeyBeforePosition` | prjrem.py:68-69 | with keys `"0"` and `"!"`, the sorted key at position 0 is `"!"`, yet looking up `"0"` finds the key `"0"` |
| `Registry.PrjRem.Retrieve` | prjrem.py:66-77 | returns the secret of the key `Resolve` settles on; on failure returns `None` and records the exception in `error`; on success `error` is unchanged; `passwords` and `config` never change |
| `Registry.ResolveAsWritten` | prjrem.py:66-77 | with the call `sorted(self.passwords.keys)` of line 21 as written, a lookup succeeds exactly when the identifier is a key |
| `Registry.PositionLookupDefect` | prjrem.py:21 | for every in-range position `i` whose text is not a key, the lookup as written fails with `TypeError` where the intended lookup succeeds |
| `Registry.PositionLookupDefectExample` | prjrem.py:21 | with the single key `"a"`, looking up `"0"` fails with `TypeError` as written, and finds `"a"` as intended |

## Left out

- `readConf`, `saveConf`, `readPass`, `savePass` (prjrem.py:33-55) read and write files and JSON through library calls. `PATH_CONF`, which only they use, goes with them.
- `PrjRemCMD` (prjrem.py:82-98) is the interactive shell and its printing. The `pyperclip` import is unused.
- The `Crypto.Cipher.AES` import is unused. The code has no encryption, key derivation, file-format versions or lock state to model.
- `Charset.RandInt` stands for `secrets.SystemRandom().randint`. It promises only the range, not a uniform or unpredictable choice.
- `Registry.PrjRem.Sequence`: does not state that characters are independent and uniform over `CHAR_SET`, because the random source is modelled by its range only.
- `PyInt.ParseInt` reads ASCII digits only. Python's `int()` also accepts the decimal digits of other scripts.
- `PyInt.ParseInt` has no limit on the number of digits. From Python 3.11 on, `int()` raises `ValueError` for text of more than 4300 digits (a limit the interpreter's configuration can change), so such an identifier gives `ValueError` where the model may find a key or give `IndexError`. Leading zeros count towards the limit.
- Identifiers, keys and secrets are modelled as strings, and lengths as integers. Python also accepts other types: `retrieve` reads an `int` or `float` identifier through `int()` as a position (a `float` truncated), `make` stores any hashable key and any secret, and only an unhashable identifier raises `TypeError`, at line 68, outside the `try`.

## Notes on the code

- `make` checks neither the key nor the secret against an alphabet. Any strings are stored.
- `sequence` with a negative length returns the empty string.
- `retrieve` accepts negative positions, as Python list indexing does. It returns only the secret.
- Entries have no description. There is no `delete`, `describe`, `list`, export or import.

## Findings

| source | as written | input that shows it | evidently intended | confidence | as-written member | corrected member |
|---|---|---|---|---|---|---|
| prjrem.py:21 | `sorted(self.passwords.keys)` passes the bound method `keys`, not the keys. `sorted` raises `TypeError`, the `except` at line 74 swallows it, and every lookup by position returns `None` | `passwords == {"a": "x"}`, `retrieve("0")` | `sorted(self.passwords.keys())`, so `retrieve("0")` returns `"x"` | high; not executed | `Registry.PositionLookupDefectExample` | `Registry.ResolveByPosition` |
