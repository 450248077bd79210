/** String operations the pages and the SQL queries rely on: ASCII lower-casing,
    substring search (JavaScript `includes`, SQL `ILIKE '%term%'`) and splitting on a separator. */
module Text {

  /** ASCII lower-casing of one character; every other character is left alone. */
  function LowerChar(c: char): char
  {
    if 'A' <= c <= 'Z' then (c as int - 'A' as int + 'a' as int) as char else c
  }

  function Lower(s: string): (r: string)
    ensures |r| == |s|
    ensures forall i :: 0 <= i < |s| ==> r[i] == LowerChar(s[i])
  {
    if |s| == 0 then "" else [LowerChar(s[0])] + Lower(s[1..])
  }

  predicate StartsWith(s: string, prefix: string)
  {
    |prefix| <= |s| && s[..|prefix|] == prefix
  }

  /** The characters of `needle` from index `k` on equal those of `s` from index `i + k` on. */
  predicate MatchesAt(s: string, needle: string, i: nat, k: nat)
    requires i + |needle| <= |s|
    decreases |needle| - k
  {
    k >= |needle| || (s[i + k] == needle[k] && MatchesAt(s, needle, i, k + 1))
  }

  /** `needle` occurs in `s` at some position `i` or later, scanning left to right. */
  predicate ContainsFrom(s: string, needle: string, i: nat)
    decreases |s| - i
  {
    i + |needle| <= |s| && (MatchesAt(s, needle, i, 0) || ContainsFrom(s, needle, i + 1))
  }

  /** `needle` occurs somewhere in `s` (JavaScript `s.includes(needle)`). */
  predicate Contains(s: string, needle: string)
  {
    ContainsFrom(s, needle, 0)
  }

  /** `needle` occurs in `s` starting at position `i`. */
  ghost predicate OccursAt(s: string, needle: string, i: int)
  {
    0 <= i && i + |needle| <= |s| && s[i..i + |needle|] == needle
  }

  /** The character-by-character comparison agrees with comparing the slice. */
  lemma {:induction false} MatchesAtIffSlice(s: string, needle: string, i: nat, k: nat)
    requires i + |needle| <= |s| && k <= |needle|
    ensures MatchesAt(s, needle, i, k) <==> s[i + k..i + |needle|] == needle[k..]
    decreases |needle| - k
  {
    if k < |needle| {
      MatchesAtIffSlice(s, needle, i, k + 1);
      var a := s[i + k..i + |needle|];
      assert a == [s[i + k]] + s[i + k + 1..i + |needle|];
      assert needle[k..] == [needle[k]] + needle[k + 1..];
    }
  }

  /** Scanning from `i` finds `needle` iff it occurs at some position at or after `i`. */
  lemma {:induction false} ContainsFromIffOccurs(s: string, needle: string, i: nat)
    ensures ContainsFrom(s, needle, i) <==> exists j :: i <= j && OccursAt(s, needle, j)
    decreases |s| - i
  {
    if i + |needle| <= |s| {
      MatchesAtIffSlice(s, needle, i, 0);
      ContainsFromIffOccurs(s, needle, i + 1);
      if j :| i <= j && OccursAt(s, needle, j) {
        if j > i {
          assert exists j' :: i + 1 <= j' && OccursAt(s, needle, j');
        }
      }
      if MatchesAt(s, needle, i, 0) {
        assert OccursAt(s, needle, i);
      }
    }
  }

  /** The scanning definition of `Contains` agrees with "occurs at some position". */
  lemma ContainsIffOccurs(s: string, needle: string)
    ensures Contains(s, needle) <==> exists i :: OccursAt(s, needle, i)
  {
    ContainsFromIffOccurs(s, needle, 0);
  }

  /** The empty string occurs in every string (SQL `ILIKE '%%'` matches every row). */
  lemma EmptyOccursEverywhere(s: string)
    ensures Contains(s, "")
  {
  }

  /** Case-insensitive substring search (ASCII letters only). */
  predicate ContainsIgnoringCase(s: string, needle: string)
  {
    Contains(Lower(s), Lower(needle))
  }

  /** JavaScript `s.split(sep)`: the pieces between separators, empty ones included. */
  function Split(s: string, sep: char): (parts: seq<string>)
    ensures |parts| >= 1
    ensures forall i :: 0 <= i < |parts| ==> sep !in parts[i]
    decreases |s|
  {
    if |s| == 0 then [""]
    else
      var rest := Split(s[1..], sep);
      if s[0] == sep then [""] + rest
      else [[s[0]] + rest[0]] + rest[1..]
  }

  /** JavaScript `parts.join(sep)`. */
  function Join(parts: seq<string>, sep: char): string
    requires |parts| >= 1
    decreases |parts|
  {
    if |parts| == 1 then parts[0] else parts[0] + [sep] + Join(parts[1..], sep)
  }

  /** Gluing the pieces back together with the separator gives the original string. */
  lemma {:induction false} JoinSplit(s: string, sep: char)
    ensures Join(Split(s, sep), sep) == s
    decreases |s|
  {
    if |s| > 0 {
      JoinSplit(s[1..], sep);
      var rest := Split(s[1..], sep);
      if s[0] == sep {
        assert Join(Split(s, sep), sep) == "" + [sep] + Join(rest, sep);
      } else {
        var parts := Split(s, sep);
        assert parts[1..] == rest[1..];
        if |rest| == 1 {
          assert Join(parts, sep) == [s[0]] + rest[0];
        } else {
          assert Join(parts, sep) == [s[0]] + rest[0] + [sep] + Join(rest[1..], sep);
        }
        assert s == [s[0]] + s[1..];
      }
    }
  }

  /** Splitting a string that starts with a separator-free word `w`: `w` is glued to the first piece. */
  lemma {:induction false} SplitAfterWord(w: string, t: string, sep: char)
    requires sep !in w
    ensures Split(w + t, sep) == [w + Split(t, sep)[0]] + Split(t, sep)[1..]
    decreases |w|
  {
    if |w| > 0 {
      SplitAfterWord(w[1..], t, sep);
      assert (w + t)[1..] == w[1..] + t;
      assert (w + t)[0] == w[0];
      assert [w[0]] + (w[1..] + Split(t, sep)[0]) == w + Split(t, sep)[0];
    } else {
      assert w + t == t;
      var parts := Split(t, sep);
      assert parts == [parts[0]] + parts[1..];
      assert w + parts[0] == parts[0];
    }
  }

  /** Splitting the join of separator-free pieces gives the pieces back. */
  lemma {:induction false} SplitJoin(parts: seq<string>, sep: char)
    requires |parts| >= 1
    requires forall i :: 0 <= i < |parts| ==> sep !in parts[i]
    ensures Split(Join(parts, sep), sep) == parts
    decreases |parts|
  {
    if |parts| == 1 {
      SplitAfterWord(parts[0], "", sep);
      assert parts[0] + "" == parts[0];
    } else {
      var tail := Join(parts[1..], sep);
      SplitJoin(parts[1..], sep);
      var t := [sep] + tail;
      assert t[1..] == tail;
      assert Split(t, sep) == [""] + parts[1..];
      assert Join(parts, sep) == parts[0] + t;
      SplitAfterWord(parts[0], t, sep);
      assert parts[0] + "" == parts[0];
      assert parts == [parts[0]] + parts[1..];
    }
  }
}
