/** PHP language and Laravel string primitives that the generator relies on,
    stated over `seq<char>`.  Laravel's inflector (`Str::plural`, `Str::singular`,
    `Str::studly`, `Str::snake`, `Str::camel`) is not interpreted: it is passed
    around as an `Inflector` value, so every property proved here holds for any
    inflection rules at all. */
module Php {

  datatype Option<+T> = None | Some(value: T)

  /** The inflection helpers of `Illuminate\Support\Str`, left uninterpreted.
      `snake` takes the delimiter as its second argument, as `Str::snake` does. */
  datatype Inflector = Inflector(
    plural: string -> string,
    singular: string -> string,
    studly: string -> string,
    snake: (string, string) -> string,
    camel: string -> string)

  /** PHP's `empty()` on a string: the empty string and "0" are empty. */
  predicate IsEmptyString(s: string) {
    s == "" || s == "0"
  }

  /** `empty($array['key'])` on a value that is a string, null or absent. */
  predicate IsEmpty(o: Option<string>) {
    o.None? || IsEmptyString(o.value)
  }

  /** `$a ?: $b` on two strings. */
  function Elvis(a: string, b: string): string {
    if IsEmptyString(a) then b else a
  }

  /** Concatenation is associative; stated once so that long chains of
      appends can be regrouped one step at a time. */
  lemma SeqAssoc<T>(a: seq<T>, b: seq<T>, c: seq<T>)
    ensures a + (b + c) == a + b + c
  {
  }

  /** `"'" . $s . "'"`, the single-quoted literal the generator emits. */
  function Quote(s: string): string {
    "'" + s + "'"
  }

  // ---------------------------------------------------------------------------
  // strtolower (ASCII only, as in PHP 8.2 and later)
  // ---------------------------------------------------------------------------

  function LowerChar(c: char): char {
    if 'A' <= c <= 'Z' then (c as int + 32) as char else c
  }

  function Lower(s: string): (r: string)
    ensures |r| == |s|
    ensures forall i :: 0 <= i < |s| ==> r[i] == LowerChar(s[i])
  {
    seq(|s|, i requires 0 <= i < |s| => LowerChar(s[i]))
  }

  /** Lower-casing twice is lower-casing once. */
  lemma LowerIdempotent(s: string)
    ensures Lower(Lower(s)) == Lower(s)
  {
    assert forall i :: 0 <= i < |s| ==> LowerChar(LowerChar(s[i])) == LowerChar(s[i]);
  }

  /** Lower-casing neither creates nor removes PHP emptiness, so a value that
      `empty()` rejects stays rejected after `strtolower`, and vice versa. */
  lemma LowerPreservesEmptiness(s: string)
    ensures IsEmptyString(Lower(s)) <==> IsEmptyString(s)
  {
    if |s| == 1 {
      assert Lower(s) == [LowerChar(s[0])];
      assert s == [s[0]];
    }
  }

  // ---------------------------------------------------------------------------
  // explode / implode
  // ---------------------------------------------------------------------------

  /** `explode($sep, $s)` for a one-character separator. */
  function Split(s: string, sep: char): (parts: seq<string>)
    ensures |parts| >= 1
    ensures (sep in s) <==> |parts| > 1
    decreases |s|
  {
    if s == [] then [[]]
    else
      var rest := Split(s[1..], sep);
      if s[0] == sep then [[]] + rest
      else [[s[0]] + rest[0]] + rest[1..]
  }

  /** `implode($glue, $parts)`. */
  function Join(parts: seq<string>, glue: string): string
    decreases |parts|
  {
    if |parts| == 0 then ""
    else if |parts| == 1 then parts[0]
    else parts[0] + glue + Join(parts[1..], glue)
  }

  /** Gluing the pieces of `explode` back together gives the original string. */
  lemma {:induction false} JoinSplit(s: string, sep: char)
    ensures Join(Split(s, sep), [sep]) == s
    decreases |s|
  {
    if s != [] {
      JoinSplit(s[1..], sep);
      var rest := Split(s[1..], sep);
      if s[0] == sep {
        assert Split(s, sep) == [[]] + rest;
        assert s == [sep] + s[1..];
      } else {
        var parts := Split(s, sep);
        assert parts == [[s[0]] + rest[0]] + rest[1..];
        if |rest| == 1 {
          assert s == [s[0]] + s[1..];
        } else {
          assert parts[1..] == rest[1..];
          assert Join(rest, [sep]) == rest[0] + [sep] + Join(rest[1..], [sep]);
          assert s == [s[0]] + s[1..];
        }
      }
    }
  }

  /** No piece of `explode` contains the separator. */
  lemma {:induction false} SplitPiecesAreSeparatorFree(s: string, sep: char)
    ensures forall k :: 0 <= k < |Split(s, sep)| ==> sep !in Split(s, sep)[k]
    decreases |s|
  {
    if s != [] {
      SplitPiecesAreSeparatorFree(s[1..], sep);
    }
  }

  /** A string without the separator explodes into itself. */
  lemma {:induction false} SplitWithoutSeparator(a: string, sep: char)
    requires sep !in a
    ensures Split(a, sep) == [a]
    decreases |a|
  {
    if a != [] {
      SplitWithoutSeparator(a[1..], sep);
      assert [a[0]] + a[1..] == a;
    }
  }

  /** Exploding `a + sep + b` splits off `a` when `a` is separator-free. */
  lemma {:induction false} SplitAtFirstSeparator(a: string, sep: char, b: string)
    requires sep !in a
    ensures Split(a + [sep] + b, sep) == [a] + Split(b, sep)
    decreases |a|
  {
    var s := a + [sep] + b;
    if a == [] {
      assert s[1..] == b;
    } else {
      assert s[1..] == a[1..] + [sep] + b;
      SplitAtFirstSeparator(a[1..], sep, b);
      assert [a[0]] + a[1..] == a;
    }
  }

  /** `explode` inverts `implode` on separator-free pieces. */
  lemma {:induction false} SplitJoin(parts: seq<string>, sep: char)
    requires |parts| >= 1
    requires forall k :: 0 <= k < |parts| ==> sep !in parts[k]
    ensures Split(Join(parts, [sep]), sep) == parts
    decreases |parts|
  {
    if |parts| == 1 {
      SplitWithoutSeparator(parts[0], sep);
    } else {
      SplitJoin(parts[1..], sep);
      SplitAtFirstSeparator(parts[0], sep, Join(parts[1..], [sep]));
      assert [parts[0]] + parts[1..] == parts;
    }
  }

  // ---------------------------------------------------------------------------
  // trim
  // ---------------------------------------------------------------------------

  /** The characters PHP's `trim` strips by default: space, tab, newline,
      carriage return, NUL and vertical tab. */
  predicate IsTrimChar(c: char) {
    c == ' ' || c == '\t' || c == '\n' || c == '\r' || c as int == 0 || c as int == 11
  }

  function TrimLeft(s: string): (r: string)
    ensures |r| <= |s| && r == s[|s| - |r|..]
    ensures r == [] || !IsTrimChar(r[0])
    ensures forall i :: 0 <= i < |s| - |r| ==> IsTrimChar(s[i])
    decreases |s|
  {
    if s != [] && IsTrimChar(s[0]) then TrimLeft(s[1..]) else s
  }

  function TrimRight(s: string): (r: string)
    ensures |r| <= |s| && r == s[..|r|]
    ensures r == [] || !IsTrimChar(r[|r| - 1])
    ensures forall i :: |r| <= i < |s| ==> IsTrimChar(s[i])
    decreases |s|
  {
    if s != [] && IsTrimChar(s[|s| - 1]) then TrimRight(s[..|s| - 1]) else s
  }

  /** `trim($s)`: what is left has no strippable character at either end. */
  function Trim(s: string): (r: string)
    ensures r == [] || (!IsTrimChar(r[0]) && !IsTrimChar(r[|r| - 1]))
    ensures |r| <= |s|
  {
    TrimRight(TrimLeft(s))
  }

  /** On a string with nothing to strip at either end `trim` is the identity;
      hence trimming twice is trimming once. */
  lemma TrimIdentity(s: string)
    requires s == [] || (!IsTrimChar(s[0]) && !IsTrimChar(s[|s| - 1]))
    ensures Trim(s) == s
  {
  }

  lemma TrimIdempotent(s: string)
    ensures Trim(Trim(s)) == Trim(s)
  {
    TrimIdentity(Trim(s));
  }

  // ---------------------------------------------------------------------------
  // Substrings, suffixes and filter_var
  // ---------------------------------------------------------------------------

  /** `needle` occurs somewhere in `hay`. */
  predicate Occurs(needle: string, hay: string)
    decreases |hay|
  {
    needle <= hay || (hay != [] && Occurs(needle, hay[1..]))
  }

  /** `Str::contains($hay, $needle)`: an empty needle never matches. */
  predicate StrContains(hay: string, needle: string) {
    needle != "" && Occurs(needle, hay)
  }

  /** `preg_replace('/_id$/', '', $s)`: PCRE's `$` also matches before a final
      newline, so a trailing "_id\n" loses its "_id" too. */
  function StripIdSuffix(s: string): (r: string)
    ensures |r| == |s| || |r| == |s| - 3
  {
    if |s| >= 3 && s[|s| - 3..] == "_id" then s[..|s| - 3]
    else if |s| >= 4 && s[|s| - 4..] == "_id\n" then s[..|s| - 4] + "\n"
    else s
  }

  /** The whitespace `filter_var` strips before validating: space, tab,
      newline, carriage return and vertical tab (not NUL, unlike `trim`). */
  predicate IsFilterSpace(c: char) {
    c == ' ' || c == '\t' || c == '\n' || c == '\r' || c as int == 11
  }

  function FilterTrim(s: string): (r: string)
    ensures r == [] || (!IsFilterSpace(r[0]) && !IsFilterSpace(r[|r| - 1]))
    decreases |s|
  {
    if s != [] && IsFilterSpace(s[0]) then FilterTrim(s[1..])
    else if s != [] && IsFilterSpace(s[|s| - 1]) then FilterTrim(s[..|s| - 1])
    else s
  }

  /** `filter_var($s, FILTER_VALIDATE_BOOLEAN)` without the null-on-failure
      flag: true exactly for "1", "true", "on" and "yes" in any case, around
      optional whitespace; every other string gives false. */
  predicate FilterBool(s: string) {
    Lower(FilterTrim(s)) in {"1", "true", "on", "yes"}
  }
}
