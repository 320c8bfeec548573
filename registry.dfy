/** The in-memory password registry of `PrjRem`: a dictionary from key to
    secret, a configuration dictionary, the last swallowed error, and the
    operations that generate, store and look up secrets. */
module Registry {
  import opened Wrappers
  import opened StringOrder
  import opened SortedKeys
  import opened PyInt
  import opened Charset

  /** The exceptions a lookup can end in. */
  datatype Error =
    | ValueError(text: string)  // `int(identifier)` rejected the text
    | IndexError(index: int)    // the number is no position in the sorted keys
    | TypeError                 // `sorted()` was handed a method (as written only)

  /** The length of the secret `make` generates when none is given. */
  const GeneratedLength: nat := 16

  /** `PrjRem.PATH_HOME`, for a user whose home directory is `home`. */
  function PathHome(home: string): string
  {
    home + "/.prjrem"
  }

  /** Python's `xs[i]` on a list of length `n`: the position it reads, where
      a negative `i` counts from the end, or `None` for `IndexError`. */
  function ListIndex(n: nat, i: int): (r: Option<nat>)
    ensures r.Some? <==> -(n as int) <= i < n
    ensures r.Some? ==> r.value < n && (if i >= 0 then r.value == i else r.value == n + i)
  {
    if 0 <= i < n then Some(i)
    else if -(n as int) <= i < 0 then Some(n + i)
    else None
  }

  /** The key `retrieve(identifier)` settles on: the identifier itself when
      it is a key; otherwise the number `int(identifier)` taken as a position
      in the sorted key list. */
  function Resolve(passwords: map<string, string>, identifier: string): (r: Result<string, Error>)
    ensures r.Success? ==> r.value in passwords
    ensures identifier in passwords ==> r == Success(identifier)
    ensures identifier !in passwords && ParseInt(identifier).None? ==>
              r == Failure(ValueError(identifier))
    ensures identifier !in passwords && ParseInt(identifier).Some? ==>
              var num := ParseInt(identifier).value;
              if -|passwords| <= num < |passwords|
              then r == Success(Sorted(passwords.Keys)[if num >= 0 then num else |passwords| + num])
              else r == Failure(IndexError(num))
  {
    if identifier in passwords then Success(identifier)
    else
      match ParseInt(identifier)
      case None => Failure(ValueError(identifier))
      case Some(num) =>
        var keys := Sorted(passwords.Keys);
        match ListIndex(|keys|, num)
        case None => Failure(IndexError(num))
        case Some(i) => Success(keys[i])
  }

  /** A number shown as text that is not itself a key reaches the key at
      that position of the sorted list, counted from the end when negative:
      the positions a listing shows are the ones a lookup uses. */
  lemma ResolveByPosition(passwords: map<string, string>, i: int)
    requires -|passwords| <= i < |passwords|
    requires Show(i) !in passwords
    ensures Resolve(passwords, Show(i)) ==
              Success(Sorted(passwords.Keys)[if i >= 0 then i else |passwords| + i])
  {
    ParseShow(i);
  }

  /** An exact key wins over a position: a key named `"0"` is found by name
      even though the sorted list holds another key at position 0. */
  lemma ExactKeyBeforePosition()
    ensures Sorted({"!", "0"})[0] == "!"
    ensures Resolve(map["0" := "zero", "!" := "bang"], "0") == Success("0")
  {
  }

  /** `retrieve` as line 21 has it: `sorted(self.passwords.keys)` is handed
      the bound method rather than the keys, so `sorted` raises `TypeError`
      whenever the lookup gets past the exact-key test and `int()`. */
  function ResolveAsWritten(passwords: map<string, string>, identifier: string): (r: Result<string, Error>)
    ensures r.Success? <==> identifier in passwords
    ensures r.Success? ==> r.value == identifier
  {
    if identifier in passwords then Success(identifier)
    else
      match ParseInt(identifier)
      case None => Failure(ValueError(identifier))
      case Some(_) => Failure(TypeError)
  }

  /** As written, a position never reaches a key: where the intended lookup
      finds `Sorted(keys)[i]`, the written one fails with `TypeError`. */
  lemma PositionLookupDefect(passwords: map<string, string>, i: int)
    requires -|passwords| <= i < |passwords|
    requires Show(i) !in passwords
    ensures ResolveAsWritten(passwords, Show(i)) == Failure(TypeError)
    ensures Resolve(passwords, Show(i)).Success?
  {
    ParseShow(i);
  }

  /** The smallest instance: one key `"a"`, looked up as `"0"`. */
  lemma PositionLookupDefectExample()
    ensures ResolveAsWritten(map["a" := "x"], "0") == Failure(TypeError)
    ensures Resolve(map["a" := "x"], "0") == Success("a")
  {
  }

  class PrjRem {
    /** `configDefaults`: where the password file goes unless configured. */
    const configDefaults: map<string, string>
    var config: map<string, string>
    var passwords: map<string, string>
    /** The exception `retrieve` swallowed last; `None` stands for the
        attribute not existing yet, as `__init__` never sets it. */
    var error: Option<Error>

    constructor (home: string)
      ensures config == map[] && passwords == map[] && error == None
      ensures configDefaults == map["location" := PathHome(home) + "/.prjremDat"]
    {
      config := map[];
      passwords := map[];
      error := None;
      configDefaults := map["location" := PathHome(home) + "/.prjremDat"];
    }

    /** The keys of `passwords` as a list in ascending order.
        As written, line 21 calls `sorted(self.passwords.keys)` without `()`,
        which raises `TypeError`. This function models the documented intent
        (line 20); `ResolveAsWritten` models the code as written. */
    function GetSortedKeys(): (keys: seq<string>)
      reads this
      ensures |keys| == |passwords|
      ensures forall k :: k in keys <==> k in passwords
      ensures StrictlyAscending(keys)
      ensures forall i, j :: 0 <= i < j < |keys| ==> keys[i] != keys[j]
    {
      var keys := Sorted(passwords.Keys);
      forall i, j | 0 <= i < j < |keys|
        ensures keys[i] != keys[j]
      {
        BelowIrreflexive(keys[i]);
      }
      keys
    }

    method SetPassLocation(path: string)
      modifies this
      ensures config == old(config)["location" := path]
      ensures passwords == old(passwords) && error == old(error)
    {
      config := config["location" := path];
    }

    /** `length` characters, each picked at random from `CharSet`; nothing
        for a length of zero or less, as `range(0, length)` is then empty. */
    method Sequence(length: int) returns (s: string)
      ensures IsSecret(s, if length > 0 then length else 0)
    {
      s := "";
      var x := 0;
      while x < length
        invariant 0 <= x && |s| == x
        invariant x <= if length > 0 then length else 0
        invariant forall i :: 0 <= i < |s| ==> s[i] in CharSet
      {
        var r := RandInt(0, CharSetLength);
        s := s + [CharSet[r]];
        x := x + 1;
      }
    }

    /** Stores `usr -> psw`, replacing any earlier secret for `usr`; with no
        `psw`, a fresh secret of `GeneratedLength` characters is stored. */
    method Make(usr: string, psw: Option<string>)
      modifies this
      ensures passwords.Keys == old(passwords).Keys + {usr}
      ensures forall k :: k in old(passwords) && k != usr ==> passwords[k] == old(passwords)[k]
      ensures psw.Some? ==> passwords[usr] == psw.value
      ensures psw.None? ==> IsSecret(passwords[usr], GeneratedLength)
      ensures config == old(config) && error == old(error)
    {
      var secret: string;
      if psw.None? {
        secret := Sequence(GeneratedLength);
      } else {
        secret := psw.value;
      }
      passwords := passwords[usr := secret];
    }

    /** Looks a secret up by key, or else by position in the sorted keys;
        a failed lookup records its exception in `error` and gives `None`. */
    method Retrieve(identifier: string) returns (r: Option<string>)
      modifies this
      ensures passwords == old(passwords) && config == old(config)
      ensures match Resolve(passwords, identifier)
              case Success(key) => r == Some(passwords[key]) && error == old(error)
              case Failure(e) => r == None && error == Some(e)
    {
      if identifier in passwords {
        return Some(passwords[identifier]);
      }
      var num := ParseInt(identifier);
      if num.None? {
        error := Some(ValueError(identifier));
        return None;
      }
      var keys := GetSortedKeys();
      var i := ListIndex(|keys|, num.value);
      if i.None? {
        error := Some(IndexError(num.value));
        return None;
      }
      return Some(passwords[keys[i.value]]);
    }
  }
}
