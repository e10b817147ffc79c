/** String primitives with JavaScript's meaning: the `\s` and `\w` character classes,
    `toLowerCase` (ASCII letters), `trim`, `split` and `join`, and substring search. */
module Text {

  /** JavaScript's `\s`, which is also the set `String.prototype.trim` strips:
      ECMAScript WhiteSpace plus LineTerminator. */
  predicate IsSpace(c: char) {
    || c == ' ' || c == '\t' || c == '\n' || c == '\U{B}' || c == '\U{C}' || c == '\r'
    || c == '\U{A0}' || c == '\U{1680}' || '\U{2000}' <= c <= '\U{200A}'
    || c == '\U{2028}' || c == '\U{2029}' || c == '\U{202F}' || c == '\U{205F}'
    || c == '\U{3000}' || c == '\U{FEFF}'
  }

  /** JavaScript's `\w`: `[A-Za-z0-9_]`. */
  predicate IsWordChar(c: char) {
    'a' <= c <= 'z' || 'A' <= c <= 'Z' || '0' <= c <= '9' || c == '_'
  }

  predicate IsUpper(c: char) {
    'A' <= c <= 'Z'
  }

  predicate IsLowerLetter(c: char) {
    'a' <= c <= 'z'
  }

  function LowerChar(c: char): (d: char)
    ensures !IsUpper(d)
    ensures IsUpper(c) ==> IsLowerLetter(d)
    ensures !IsUpper(c) ==> d == c
  {
    if IsUpper(c) then (c as int + 32) as char else c
  }

  /** `toLowerCase` on ASCII letters; every other character is left as it is. */
  function Lower(s: string): (r: string)
    ensures |r| == |s|
    ensures forall i :: 0 <= i < |r| ==> !IsUpper(r[i])
    ensures forall i :: 0 <= i < |s| ==> !IsUpper(s[i]) ==> r[i] == s[i]
  {
    seq(|s|, i requires 0 <= i < |s| => LowerChar(s[i]))
  }

  predicate IsBlank(s: string) {
    forall i :: 0 <= i < |s| ==> IsSpace(s[i])
  }

  /** The index of the first non-whitespace character at or after `i`, or `|s|`. */
  function SkipSpaces(s: string, i: nat): (n: nat)
    requires i <= |s|
    ensures i <= n <= |s|
    ensures forall k :: i <= k < n ==> IsSpace(s[k])
    ensures n < |s| ==> !IsSpace(s[n])
    decreases |s| - i
  {
    if i < |s| && IsSpace(s[i]) then SkipSpaces(s, i + 1) else i
  }

  /** One past the last non-whitespace character before `j`, or 0. */
  function SkipSpacesBack(s: string, j: nat): (n: nat)
    requires j <= |s|
    ensures n <= j
    ensures forall k :: n <= k < j ==> IsSpace(s[k])
    ensures n > 0 ==> !IsSpace(s[n - 1])
  {
    if j > 0 && IsSpace(s[j - 1]) then SkipSpacesBack(s, j - 1) else j
  }

  /** `String.prototype.trim`: `s` with leading and trailing whitespace removed. The result
      is the slice of `s` between two all-whitespace margins, and it neither starts nor
      ends with whitespace. */
  function Trim(s: string): (r: string)
    ensures exists i :: 0 <= i <= |s| - |r| && r == s[i..i + |r|]
                        && IsBlank(s[..i]) && IsBlank(s[i + |r|..])
    ensures |r| > 0 ==> !IsSpace(r[0]) && !IsSpace(r[|r| - 1])
    ensures |r| == 0 <==> IsBlank(s)
  {
    var i := SkipSpaces(s, 0);
    var j := SkipSpacesBack(s, |s|);
    if i < j then
      assert IsBlank(s[..i]) && IsBlank(s[j..]);
      s[i..j]
    else
      assert i < |s| ==> j > i;
      assert IsBlank(s[..0]) && IsBlank(s[0..]);
      ""
  }

  /** Splits `s` at every character satisfying `isSep`, as `split` does: `k` separators give
      `k + 1` fields, possibly empty ones, and no field contains a separator. */
  function Split(s: string, isSep: char -> bool): (r: seq<string>)
    ensures |r| >= 1
    ensures forall k, i :: 0 <= k < |r| && 0 <= i < |r[k]| ==> !isSep(r[k][i])
  {
    if |s| == 0 then [""]
    else
      var rest := Split(s[1..], isSep);
      if isSep(s[0]) then [""] + rest
      else [[s[0]] + rest[0]] + rest[1..]
  }

  /** `parts.join(sep)` for a one-character separator. */
  function Join(parts: seq<string>, sep: char): string {
    if |parts| == 0 then ""
    else if |parts| == 1 then parts[0]
    else parts[0] + [sep] + Join(parts[1..], sep)
  }

  /** Every field of a split is made of characters of the split string: a property of
      all characters of `s` holds of all characters of every field. */
  lemma {:induction false} SplitKeepsCharacters(s: string, isSep: char -> bool, p: char -> bool)
    requires forall i :: 0 <= i < |s| ==> p(s[i])
    ensures forall k, i :: 0 <= k < |Split(s, isSep)| && 0 <= i < |Split(s, isSep)[k]| ==>
              p(Split(s, isSep)[k][i])
  {
    if |s| > 0 {
      assert forall i :: 0 <= i < |s[1..]| ==> p(s[1..][i]) by {
        forall i | 0 <= i < |s[1..]| ensures p(s[1..][i]) {
          assert s[1..][i] == s[i + 1];
        }
      }
      SplitKeepsCharacters(s[1..], isSep, p);
      var rest := Split(s[1..], isSep);
      if !isSep(s[0]) {
        var r := Split(s, isSep);
        forall k, i | 0 <= k < |r| && 0 <= i < |r[k]| ensures p(r[k][i]) {
          if k == 0 {
            assert r[0] == [s[0]] + rest[0];
            if i > 0 {
              assert r[0][i] == rest[0][i - 1];
            }
          } else {
            assert r[k] == rest[k];
          }
        }
      }
    }
  }

  /** A string made only of separators splits into empty fields. */
  lemma {:induction false} SplitOfSeparators(s: string, isSep: char -> bool)
    requires forall i :: 0 <= i < |s| ==> isSep(s[i])
    ensures forall w :: w in Split(s, isSep) ==> |w| == 0
  {
    if |s| > 0 {
      assert isSep(s[0]);
      assert forall i :: 0 <= i < |s[1..]| ==> isSep(s[1..][i]);
      SplitOfSeparators(s[1..], isSep);
    }
  }

  lemma JoinCons(c: char, first: string, tail: seq<string>, sep: char)
    ensures Join([[c] + first] + tail, sep) == [c] + Join([first] + tail, sep)
  {
    var a := [[c] + first] + tail;
    var b := [first] + tail;
    if |tail| > 0 {
      assert a[1..] == tail && b[1..] == tail;
    }
  }

  /** Joining the fields of a split on a single separator character with that character
      gives back the original string. */
  lemma {:induction false} JoinSplit(s: string, isSep: char -> bool, sep: char)
    requires forall c :: isSep(c) <==> c == sep
    ensures Join(Split(s, isSep), sep) == s
  {
    if |s| > 0 {
      var rest := Split(s[1..], isSep);
      JoinSplit(s[1..], isSep, sep);
      if s[0] == sep {
        assert Split(s, isSep) == [""] + rest;
        assert ([""] + rest)[1..] == rest;
        assert s == [sep] + s[1..];
      } else {
        assert Split(s, isSep) == [[s[0]] + rest[0]] + rest[1..];
        JoinCons(s[0], rest[0], rest[1..], sep);
        assert [rest[0]] + rest[1..] == rest;
        assert s == [s[0]] + s[1..];
      }
    }
  }

  /** `p` occurs in `s` starting at index `i`. */
  predicate OccursAt(s: string, p: string, i: int) {
    0 <= i && i + |p| <= |s| && s[i..i + |p|] == p
  }

  predicate StartsWith(s: string, p: string) {
    |p| <= |s| && s[..|p|] == p
  }

  /** Left-to-right substring search, the executable form of "`p` is a substring of `s`". */
  predicate Contains(s: string, p: string)
    decreases |s|
  {
    StartsWith(s, p) || (|s| > 0 && Contains(s[1..], p))
  }

  lemma {:induction false} ContainsIff(s: string, p: string)
    ensures Contains(s, p) <==> exists i :: OccursAt(s, p, i)
    decreases |s|
  {
    if StartsWith(s, p) {
      assert OccursAt(s, p, 0);
    } else if |s| > 0 {
      ContainsIff(s[1..], p);
      forall i | OccursAt(s[1..], p, i) ensures OccursAt(s, p, i + 1) {
        assert s[1..][i..i + |p|] == s[i + 1..i + 1 + |p|];
      }
      forall i | OccursAt(s, p, i) ensures OccursAt(s[1..], p, i - 1) {
        assert s[1..][i - 1..i - 1 + |p|] == s[i..i + |p|];
      }
    }
  }
}
