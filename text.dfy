/** The string operations the integrations rely on: Python's `str.strip()`,
    `str.split(sep)` and `sep.join(...)`, and the ordering Python uses to compare
    and sort `str` values. */
module Text {

  /** The ASCII characters `str.strip()` and `float()` treat as whitespace: space,
      `\t`, `\n`, `\v`, `\f`, `\r` and the separators `\x1c` to `\x1f`. */
  predicate IsSpace(c: char) {
    c == ' ' || c == '\t' || c == '\n' || c == '\r' || c == '\U{000B}' || c == '\U{000C}'
    || c == '\U{001C}' || c == '\U{001D}' || c == '\U{001E}' || c == '\U{001F}'
  }

  function TrimLeft(s: string): string
    decreases |s|
  {
    if s != [] && IsSpace(s[0]) then TrimLeft(s[1..]) else s
  }

  function TrimRight(s: string): string
    decreases |s|
  {
    if s != [] && IsSpace(s[|s| - 1]) then TrimRight(s[..|s| - 1]) else s
  }

  /** Python's `s.strip()`. */
  function Strip(s: string): string {
    TrimRight(TrimLeft(s))
  }

  lemma {:induction false} TrimLeftShape(s: string)
    ensures TrimLeft(s) == [] || !IsSpace(TrimLeft(s)[0])
    decreases |s|
  {
    if s != [] && IsSpace(s[0]) { TrimLeftShape(s[1..]); }
  }

  lemma {:induction false} TrimRightShape(s: string)
    ensures |TrimRight(s)| <= |s| && TrimRight(s) == s[..|TrimRight(s)|]
    ensures TrimRight(s) == [] || !IsSpace(TrimRight(s)[|TrimRight(s)| - 1])
    decreases |s|
  {
    if s != [] && IsSpace(s[|s| - 1]) { TrimRightShape(s[..|s| - 1]); }
  }

  /** What `strip()` returns starts and ends with a character that is not whitespace. */
  lemma StripShape(s: string)
    ensures Strip(s) == [] || (!IsSpace(Strip(s)[0]) && !IsSpace(Strip(s)[|Strip(s)| - 1]))
  {
    TrimLeftShape(s);
    TrimRightShape(TrimLeft(s));
  }

  /** A string with no whitespace at either end is left alone by `strip()`. */
  lemma StripOfTrimmed(s: string)
    requires s == [] || (!IsSpace(s[0]) && !IsSpace(s[|s| - 1]))
    ensures Strip(s) == s
  {
  }

  lemma StripIdempotent(s: string)
    ensures Strip(Strip(s)) == Strip(s)
  {
    StripShape(s);
    StripOfTrimmed(Strip(s));
  }

  /** A string with no whitespace at all is unchanged by `strip()`. */
  lemma StripNoSpace(s: string)
    requires forall i :: 0 <= i < |s| ==> !IsSpace(s[i])
    ensures Strip(s) == s
  {
    StripOfTrimmed(s);
  }

  lemma {:induction false} TrimLeftSuffix(s: string)
    ensures |TrimLeft(s)| <= |s| && TrimLeft(s) == s[|s| - |TrimLeft(s)|..]
    decreases |s|
  {
    if s != [] && IsSpace(s[0]) { TrimLeftSuffix(s[1..]); }
  }

  /** `strip()` only removes characters: whatever it returns was in its argument. */
  lemma StripKeeps(s: string, c: char)
    ensures c in Strip(s) ==> c in s
  {
    TrimLeftSuffix(s);
    TrimRightShape(TrimLeft(s));
    if c in Strip(s) {
      var i :| 0 <= i < |Strip(s)| && Strip(s)[i] == c;
      assert TrimLeft(s)[i] == c;
      assert s[|s| - |TrimLeft(s)| + i] == c;
    }
  }

  /** `s.rstrip(c)` for a single character `c`. */
  function RStrip(s: string, c: char): (r: string)
    ensures |r| <= |s| && r == s[..|r|]
    decreases |s|
  {
    if s != [] && s[|s| - 1] == c then RStrip(s[..|s| - 1], c) else s
  }

  /** Python's `s.split(sep)` for a one-character separator. */
  function Split(s: string, sep: char): (parts: seq<string>)
    ensures |parts| >= 1
    ensures forall i :: 0 <= i < |parts| ==> sep !in parts[i]
    ensures |parts| == 1 <==> sep !in s
    decreases |s|
  {
    if s == [] then [""]
    else
      var rest := Split(s[1..], sep);
      if s[0] == sep then [""] + rest
      else [[s[0]] + rest[0]] + rest[1..]
  }

  /** Python's `sep.join(parts)`. */
  function Join(parts: seq<string>, sep: char): string
    requires |parts| >= 1
    decreases |parts|
  {
    if |parts| == 1 then parts[0] else parts[0] + [sep] + Join(parts[1..], sep)
  }

  lemma {:induction false} JoinHead(parts: seq<string>, sep: char)
    requires |parts| >= 1 && |parts[0]| > 0
    ensures |Join(parts, sep)| > 0 && Join(parts, sep)[0] == parts[0][0]
    decreases |parts|
  {
  }

  /** The last character of a join of two or more parts: the last part's last one, or
      the separator when the last part is empty. */
  lemma {:induction false} JoinLast(parts: seq<string>, sep: char)
    requires |parts| >= 2
    ensures |Join(parts, sep)| > 0
    ensures Join(parts, sep)[|Join(parts, sep)| - 1]
            == if parts[|parts| - 1] == [] then sep else parts[|parts| - 1][|parts[|parts| - 1]| - 1]
    decreases |parts|
  {
    var t := Join(parts[1..], sep);
    assert Join(parts, sep) == parts[0] + [sep] + t;
    if |parts| > 2 {
      JoinLast(parts[1..], sep);
    }
  }

  /** A join whose outer parts are stripped, over a separator that is not whitespace,
      is left alone by `strip()`. */
  lemma JoinStripped(parts: seq<string>, sep: char)
    requires |parts| >= 2 && !IsSpace(sep)
    requires Strip(parts[0]) == parts[0] && Strip(parts[|parts| - 1]) == parts[|parts| - 1]
    ensures Strip(Join(parts, sep)) == Join(parts, sep)
  {
    StripShape(parts[0]);
    StripShape(parts[|parts| - 1]);
    JoinLast(parts, sep);
    var t := Join(parts[1..], sep);
    assert Join(parts, sep) == parts[0] + [sep] + t;
    StripOfTrimmed(Join(parts, sep));
  }

  lemma {:induction false} SplitPrefix(x: string, t: string, sep: char)
    requires sep !in x
    ensures Split(x + t, sep) == [x + Split(t, sep)[0]] + Split(t, sep)[1..]
    decreases |x|
  {
    var st := Split(t, sep);
    if x != [] {
      assert (x + t)[1..] == x[1..] + t;
      SplitPrefix(x[1..], t, sep);
      assert x == [x[0]] + x[1..];
      assert [x[0]] + (x[1..] + st[0]) == x + st[0];
    } else {
      assert x + t == t;
      assert x + st[0] == st[0];
      assert st == [st[0]] + st[1..];
    }
  }

  /** Splitting what was joined gives the parts back, provided no part holds the
      separator: the two functions are inverses on such lists. */
  lemma {:induction false} SplitJoin(parts: seq<string>, sep: char)
    requires |parts| >= 1
    requires forall i :: 0 <= i < |parts| ==> sep !in parts[i]
    ensures Split(Join(parts, sep), sep) == parts
    decreases |parts|
  {
    if |parts| > 1 {
      var t := Join(parts[1..], sep);
      SplitJoin(parts[1..], sep);
      assert parts[0] + [sep] + t == parts[0] + ([sep] + t);
      SplitPrefix(parts[0], [sep] + t, sep);
      assert ([sep] + t)[1..] == t;
      assert Split([sep] + t, sep) == [""] + Split(t, sep);
      assert parts[0] + "" == parts[0];
      assert parts == [parts[0]] + parts[1..];
    } else {
      SplitPrefix(parts[0], "", sep);
      assert parts[0] + "" == parts[0];
    }
  }

  lemma {:induction false} JoinSplit(s: string, sep: char)
    ensures Join(Split(s, sep), sep) == s
    decreases |s|
  {
    if s != [] {
      var rest := Split(s[1..], sep);
      JoinSplit(s[1..], sep);
      if s[0] == sep {
        assert s == [sep] + s[1..];
      } else {
        var parts := Split(s, sep);
        assert parts[1..] == rest[1..];
        if |rest| == 1 {
          assert s == [s[0]] + s[1..];
        } else {
          assert rest == [rest[0]] + rest[1..];
          assert s == [s[0]] + s[1..];
        }
      }
    }
  }

  /** Python's `<` on `str`: lexicographic by code point, a proper prefix first. */
  predicate Less(a: string, b: string)
    decreases |a|
  {
    if a == [] then b != []
    else b != [] && (a[0] < b[0] || (a[0] == b[0] && Less(a[1..], b[1..])))
  }

  lemma {:induction false} LessIrreflexive(a: string)
    ensures !Less(a, a)
    decreases |a|
  {
    if a != [] { LessIrreflexive(a[1..]); }
  }

  lemma {:induction false} LessTransitive(a: string, b: string, c: string)
    requires Less(a, b) && Less(b, c)
    ensures Less(a, c)
    decreases |a|
  {
    if a != [] && a[0] == b[0] && b[0] == c[0] {
      LessTransitive(a[1..], b[1..], c[1..]);
    }
  }

  /** Any two different strings are ordered one way or the other. */
  lemma {:induction false} LessTotal(a: string, b: string)
    requires a != b
    ensures Less(a, b) || Less(b, a)
    decreases |a|
  {
    if a != [] && b != [] && a[0] == b[0] {
      assert a == [a[0]] + a[1..] && b == [b[0]] + b[1..];
      LessTotal(a[1..], b[1..]);
    }
  }

  /** Comparing two concatenations whose first halves have the same length compares
      the first halves, and the second halves when the first halves are equal. */
  lemma {:induction false} LessConcat(a1: string, a2: string, b1: string, b2: string)
    requires |a1| == |b1|
    ensures Less(a1 + a2, b1 + b2) <==> Less(a1, b1) || (a1 == b1 && Less(a2, b2))
    decreases |a1|
  {
    if a1 != [] {
      assert (a1 + a2)[1..] == a1[1..] + a2;
      assert (b1 + b2)[1..] == b1[1..] + b2;
      LessConcat(a1[1..], a2, b1[1..], b2);
      if a1[0] == b1[0] && a1[1..] == b1[1..] {
        assert a1 == [a1[0]] + a1[1..] && b1 == [b1[0]] + b1[1..];
      }
    } else {
      assert a1 + a2 == a2 && b1 + b2 == b2;
    }
  }

  /** Strictly decreasing in Python's string order: the order of
      `sorted(..., reverse=True)` over distinct keys. */
  predicate Descending(s: seq<string>) {
    forall i, j :: 0 <= i < j < |s| ==> Less(s[j], s[i])
  }

  predicate IsGreatest(m: string, keys: set<string>) {
    m in keys && forall k :: k in keys && k != m ==> Less(k, m)
  }

  lemma {:induction false} GreatestExists(keys: set<string>)
    requires keys != {}
    ensures exists m :: IsGreatest(m, keys)
    decreases keys
  {
    var x :| x in keys;
    var rest := keys - {x};
    if rest == {} {
      assert keys == {x};
      assert IsGreatest(x, keys);
    } else {
      GreatestExists(rest);
      var m :| IsGreatest(m, rest);
      if Less(x, m) {
        assert IsGreatest(m, keys);
      } else {
        LessTotal(x, m);
        forall k | k in keys && k != x ensures Less(k, x) {
          if k != m { LessTransitive(k, m, x); }
        }
        assert IsGreatest(x, keys);
      }
    }
  }

  /** The greatest of a non-empty set of keys. */
  ghost function Greatest(keys: set<string>): (m: string)
    requires keys != {}
    ensures m in keys
  {
    GreatestExists(keys);
    var m :| IsGreatest(m, keys);
    m
  }

  lemma GreatestIsGreatest(keys: set<string>)
    requires keys != {}
    ensures IsGreatest(Greatest(keys), keys)
  {
  }

  /** The keys of a set, newest (greatest) first: what Python's
      `sorted(keys, reverse=True)` produces. */
  ghost function SortedDesc(keys: set<string>): (r: seq<string>)
    ensures forall k :: k in r <==> k in keys
    ensures |r| == |keys|
    decreases keys
  {
    if keys == {} then [] else [Greatest(keys)] + SortedDesc(keys - {Greatest(keys)})
  }

  /** The enumeration `SortedDesc` gives is strictly decreasing. */
  lemma {:induction false} SortedDescDescending(keys: set<string>)
    ensures Descending(SortedDesc(keys))
    decreases keys
  {
    if keys != {} {
      var r := SortedDesc(keys);
      var m := Greatest(keys);
      GreatestIsGreatest(keys);
      SortedDescDescending(keys - {m});
      forall i, j | 0 <= i < j < |r| ensures Less(r[j], r[i]) {
        if i > 0 {
          assert r[i] == r[1..][i - 1] && r[j] == r[1..][j - 1];
        }
      }
    }
  }

  /** There is only one descending enumeration of a set of keys, so any way of sorting
      them gives the same sequence. */
  lemma {:induction false} DescendingUnique(s: seq<string>, t: seq<string>)
    requires Descending(s) && Descending(t) && |s| == |t|
    requires forall k :: k in s <==> k in t
    ensures s == t
    decreases |s|
  {
    if s != [] {
      assert s[0] in s && t[0] in t;
      if s[0] != t[0] {
        var i :| 0 <= i < |t| && t[i] == s[0];
        var j :| 0 <= j < |s| && s[j] == t[0];
        assert Less(s[0], t[0]) by {
          if i != 0 { assert Less(t[i], t[0]); }
        }
        assert Less(t[0], s[0]) by {
          if j != 0 { assert Less(s[j], s[0]); }
        }
        LessTransitive(s[0], t[0], s[0]);
        LessIrreflexive(s[0]);
      }
      forall k ensures k in s[1..] <==> k in t[1..] {
        if k in s[1..] {
          var a :| 0 <= a < |s| - 1 && s[1..][a] == k;
          assert Less(s[a + 1], s[0]);
          LessIrreflexive(k);
          assert k in t && k != t[0];
          var b :| 0 <= b < |t| && t[b] == k;
          assert t[1..][b - 1] == k;
        }
        if k in t[1..] {
          var a :| 0 <= a < |t| - 1 && t[1..][a] == k;
          assert Less(t[a + 1], t[0]);
          LessIrreflexive(k);
          assert k in s && k != s[0];
          var b :| 0 <= b < |s| && s[b] == k;
          assert s[1..][b - 1] == k;
        }
      }
      DescendingUnique(s[1..], t[1..]);
      assert s == [s[0]] + s[1..] && t == [t[0]] + t[1..];
    }
  }

  /** Inserts `k` into a descending sequence at its place. */
  function InsertDesc(s: seq<string>, k: string): (r: seq<string>)
    requires Descending(s) && k !in s
    ensures Descending(r)
    ensures forall x :: x in r <==> x in s || x == k
    ensures |r| == |s| + 1
    decreases |s|
  {
    if s == [] then [k]
    else if Less(s[0], k) then
      assert forall j :: 0 <= j < |s| ==> Less(s[j], k) by {
        forall j | 0 <= j < |s| ensures Less(s[j], k) {
          if j > 0 { LessTransitive(s[j], s[0], k); }
        }
      }
      [k] + s
    else
      LessTotal(s[0], k);
      var rest := InsertDesc(s[1..], k);
      forall j | 0 <= j < |rest| ensures Less(rest[j], s[0]) {
        assert rest[j] in rest;
        if rest[j] != k {
          var a :| 0 <= a < |s| - 1 && s[1..][a] == rest[j];
          assert Less(s[a + 1], s[0]);
        }
      }
      [s[0]] + rest
  }
}
