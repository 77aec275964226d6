/**
  Strings as the Go source sees them.  A `char` stands for one byte, so `|s|` is Go's `len(s)`.
  Splitting, joining and trimming of separated lists, decimal numerals, and the bytewise order.
 */
module Text {

  datatype Option<+T> = None | Some(value: T)

  lemma Associative<T>(a: seq<T>, b: seq<T>, c: seq<T>)
    ensures (a + b) + c == a + (b + c)
  {
  }

  /* ---------- splitting and joining ---------- */

  function Split(s: string, sep: char): (parts: seq<string>)
    ensures parts != []
  {
    if s == [] then [""]
    else
      var rest := Split(s[1..], sep);
      if s[0] == sep then [""] + rest else [[s[0]] + rest[0]] + rest[1..]
  }

  function Join(parts: seq<string>, sep: string): string
  {
    if parts == [] then ""
    else if |parts| == 1 then parts[0]
    else parts[0] + sep + Join(parts[1..], sep)
  }

  lemma {:induction false} SplitPartsClean(s: string, sep: char)
    ensures forall i :: 0 <= i < |Split(s, sep)| ==> sep !in Split(s, sep)[i]
  {
    if s != [] {
      SplitPartsClean(s[1..], sep);
    }
  }

  lemma {:induction false} SplitNoSep(s: string, sep: char)
    requires sep !in s
    ensures Split(s, sep) == [s]
  {
    if s == [] {
    } else {
      SplitNoSep(s[1..], sep);
      assert [s[0]] + s[1..] == s;
    }
  }

  lemma {:induction false} SplitAtSep(a: string, sep: char, b: string)
    requires sep !in a
    ensures Split(a + [sep] + b, sep) == [a] + Split(b, sep)
  {
    var s := a + [sep] + b;
    if a == [] {
      assert s[1..] == b;
    } else {
      SplitAtSep(a[1..], sep, b);
      assert s[1..] == a[1..] + [sep] + b;
      assert [s[0]] + a[1..] == a;
    }
  }

  lemma {:induction false} SplitHead(s: string, sep: char)
    requires s != ""
    ensures var rest := Split(s[1..], sep);
            Split(s, sep) == if s[0] == sep then [""] + rest else [[s[0]] + rest[0]] + rest[1..]
  {
  }

  lemma {:induction false} SplitConcat(a: string, sep: char, b: string)
    ensures Split(a + [sep] + b, sep) == Split(a, sep) + Split(b, sep)
  {
    var s := a + [sep] + b;
    if a == [] {
      assert s[1..] == b;
    } else {
      SplitConcat(a[1..], sep, b);
      assert s[1..] == a[1..] + [sep] + b && s[0] == a[0];
      var ra, rb := Split(a[1..], sep), Split(b, sep);
      SplitHead(a, sep);
      SplitHead(s, sep);
      hide Split;
      if a[0] == sep {
        Associative([""], ra, rb);
      } else {
        assert (ra + rb)[0] == ra[0] && (ra + rb)[1..] == ra[1..] + rb;
        Associative([[a[0]] + ra[0]], ra[1..], rb);
      }
    }
  }

  lemma {:induction false} SplitJoin(parts: seq<string>, sep: char)
    requires parts != []
    requires forall i :: 0 <= i < |parts| ==> sep !in parts[i]
    ensures Split(Join(parts, [sep]), sep) == parts
  {
    if |parts| == 1 {
      SplitNoSep(parts[0], sep);
    } else {
      SplitJoin(parts[1..], sep);
      SplitAtSep(parts[0], sep, Join(parts[1..], [sep]));
      assert [parts[0]] + parts[1..] == parts;
    }
  }

  /* ---------- trimming ---------- */

  predicate IsSpace(c: char)
  {
    c == ' ' || c == '\t' || c == '\n' || c == '\r' || c == '\U{0B}' || c == '\U{0C}'
  }

  predicate Trimmed(s: string)
  {
    s == [] || (!IsSpace(s[0]) && !IsSpace(s[|s| - 1]))
  }

  /** strings.TrimSpace: the longest infix that neither starts nor ends with white space. */
  function TrimSpace(s: string): string
  {
    if s == [] then s
    else if IsSpace(s[0]) then TrimSpace(s[1..])
    else if IsSpace(s[|s| - 1]) then TrimSpace(s[..|s| - 1])
    else s
  }

  lemma {:induction false} TrimSpaceTrims(s: string)
    ensures Trimmed(TrimSpace(s))
    ensures Trimmed(s) ==> TrimSpace(s) == s
    decreases |s|
  {
    if s == [] {
    } else if IsSpace(s[0]) {
      TrimSpaceTrims(s[1..]);
    } else if IsSpace(s[|s| - 1]) {
      TrimSpaceTrims(s[..|s| - 1]);
    }
  }

  predicate AllSpace(s: string)
  {
    forall i :: 0 <= i < |s| ==> IsSpace(s[i])
  }

  /** Whatever white space surrounds a trimmed text, trimming gives exactly that text. */
  lemma {:induction false} TrimSpacePadded(pre: string, s: string, post: string)
    requires AllSpace(pre) && AllSpace(post) && Trimmed(s)
    ensures TrimSpace(pre + s + post) == s
    decreases |pre| + |post|
  {
    var t := pre + s + post;
    if pre != [] {
      TrimSpacePadded(pre[1..], s, post);
      assert t[1..] == pre[1..] + s + post && t[0] == pre[0];
    } else if post == [] {
      assert t == s;
      TrimSpaceTrims(s);
    } else if s == [] {
      TrimSpacePadded([], [], post[1..]);
      assert t == post && post[1..] == [] + [] + post[1..];
    } else {
      var n := |post| - 1;
      TrimSpacePadded([], s, post[..n]);
      assert t == s + post && t[0] == s[0] && t[|t| - 1] == post[n];
      assert t[..|t| - 1] == [] + s + post[..n];
    }
  }

  /** And every text is its trimmed form with white space around it. */
  lemma {:induction false} TrimSpaceParts(s: string) returns (pre: string, post: string)
    ensures AllSpace(pre) && AllSpace(post) && s == pre + TrimSpace(s) + post
    decreases |s|
  {
    if s == [] {
      pre, post := [], [];
    } else if IsSpace(s[0]) {
      pre, post := TrimSpaceParts(s[1..]);
      pre := [s[0]] + pre;
    } else if IsSpace(s[|s| - 1]) {
      pre, post := TrimSpaceParts(s[..|s| - 1]);
      post := post + [s[|s| - 1]];
    } else {
      pre, post := [], [];
      assert s == pre + s + post;
    }
  }

  /* ---------- comma lists ---------- */

  function KeptName(part: string): seq<string>
  {
    var name := TrimSpace(part);
    if name == "" then [] else [name]
  }

  /** The names a comma list denotes: every part trimmed, empty parts dropped. */
  function NonEmptyTrimmed(parts: seq<string>): seq<string>
  {
    if parts == [] then [] else KeptName(parts[0]) + NonEmptyTrimmed(parts[1..])
  }

  function CommaNames(s: string): seq<string>
  {
    NonEmptyTrimmed(Split(s, ','))
  }

  predicate CommaSafe(name: string)
  {
    name != "" && Trimmed(name) && ',' !in name
  }

  lemma {:induction false} NonEmptyTrimmedAppend(a: seq<string>, b: seq<string>)
    ensures NonEmptyTrimmed(a + b) == NonEmptyTrimmed(a) + NonEmptyTrimmed(b)
  {
    hide KeptName;
    if a == [] {
      assert a + b == b;
    } else {
      NonEmptyTrimmedAppend(a[1..], b);
      assert (a + b)[1..] == a[1..] + b;
      Associative(KeptName(a[0]), NonEmptyTrimmed(a[1..]), NonEmptyTrimmed(b));
    }
  }

  lemma {:induction false} CleanNamesKept(names: seq<string>)
    requires forall i :: 0 <= i < |names| ==> names[i] != "" && Trimmed(names[i])
    ensures NonEmptyTrimmed(names) == names
  {
    if names != [] {
      CleanNamesKept(names[1..]);
      TrimSpaceTrims(names[0]);
      assert [names[0]] + names[1..] == names;
    }
  }

  lemma {:induction false} TrimSpaceKeeps(s: string, c: char)
    requires c !in s
    ensures c !in TrimSpace(s)
    decreases |s|
  {
    if s == [] {
    } else if IsSpace(s[0]) {
      TrimSpaceKeeps(s[1..], c);
    } else if IsSpace(s[|s| - 1]) {
      TrimSpaceKeeps(s[..|s| - 1], c);
    }
  }

  /** Whatever the list looks like, the names read from it are safe to join again. */
  lemma {:induction false} NonEmptyTrimmedSafe(parts: seq<string>)
    requires forall i :: 0 <= i < |parts| ==> ',' !in parts[i]
    ensures forall i :: 0 <= i < |NonEmptyTrimmed(parts)| ==> CommaSafe(NonEmptyTrimmed(parts)[i])
  {
    if parts != [] {
      NonEmptyTrimmedSafe(parts[1..]);
      TrimSpaceKeeps(parts[0], ',');
      TrimSpaceTrims(parts[0]);
    }
  }

  /** Parsing undoes joining exactly on lists of trimmed, non-empty, comma-free names. */
  lemma {:induction false} CommaListRoundTrip(names: seq<string>)
    ensures CommaNames(Join(names, ",")) == names
            <==> forall i :: 0 <= i < |names| ==> CommaSafe(names[i])
  {
    var joined := Join(names, ",");
    if forall i :: 0 <= i < |names| ==> CommaSafe(names[i]) {
      if names == [] {
        assert Split("", ',') == [""];
      } else {
        SplitJoin(names, ',');
        CleanNamesKept(names);
      }
    }
    SplitPartsClean(joined, ',');
    NonEmptyTrimmedSafe(Split(joined, ','));
  }

  predicate Padded(part: string, name: string)
  {
    exists i, j :: 0 <= i <= j <= |part| && AllSpace(part[..i]) && AllSpace(part[j..]) && part[i..j] == name
  }

  lemma {:induction false} PaddedTrims(part: string, name: string)
    requires Padded(part, name) && Trimmed(name)
    ensures TrimSpace(part) == name
  {
    var i, j :| 0 <= i <= j <= |part| && AllSpace(part[..i]) && AllSpace(part[j..]) && part[i..j] == name;
    TrimSpacePadded(part[..i], name, part[j..]);
    assert part == part[..i] + name + part[j..];
  }

  lemma PaddedCommaFree(part: string, name: string)
    requires Padded(part, name) && ',' !in name
    ensures ',' !in part
  {
    var i, j :| 0 <= i <= j <= |part| && AllSpace(part[..i]) && AllSpace(part[j..]) && part[i..j] == name;
    forall k | 0 <= k < |part| ensures part[k] != ',' {
      if k < i {
        assert part[k] == part[..i][k];
      } else if k < j {
        assert part[k] == name[k - i];
      } else {
        assert part[k] == part[j..][k - j];
      }
    }
  }

  lemma {:induction false} PaddedNamesKept(parts: seq<string>, names: seq<string>)
    requires |parts| == |names|
    requires forall i :: 0 <= i < |names| ==> Padded(parts[i], names[i]) && names[i] != "" && Trimmed(names[i])
    ensures NonEmptyTrimmed(parts) == names
  {
    hide Padded;
    if names != [] {
      PaddedTrims(parts[0], names[0]);
      PaddedNamesKept(parts[1..], names[1..]);
      assert [names[0]] + names[1..] == names;
    }
  }

  /** White space around the names of a list does not matter: the same names are read, in order. */
  lemma {:induction false} PaddedListRead(parts: seq<string>, names: seq<string>)
    requires |parts| == |names| && names != []
    requires forall i :: 0 <= i < |names| ==> Padded(parts[i], names[i]) && CommaSafe(names[i])
    ensures CommaNames(Join(parts, ",")) == names
  {
    hide Padded;
    forall i | 0 <= i < |parts| ensures ',' !in parts[i] {
      PaddedCommaFree(parts[i], names[i]);
    }
    SplitJoin(parts, ',');
    PaddedNamesKept(parts, names);
  }

  /**
    How a list is read, in three laws that leave no choice: a comma separates two lists, a blank
    part names nothing, and any other part names what is between the white space.
   */
  lemma CommaListLaws(a: string, b: string, part: string, name: string)
    ensures CommaNames(a + "," + b) == CommaNames(a) + CommaNames(b)
    ensures AllSpace(part) ==> CommaNames(part) == []
    ensures Padded(part, name) && CommaSafe(name) ==> CommaNames(part) == [name]
  {
    SplitConcat(a, ',', b);
    NonEmptyTrimmedAppend(Split(a, ','), Split(b, ','));
    if AllSpace(part) {
      TrimSpacePadded(part, [], []);
      assert part + [] + [] == part;
      SplitNoSep(part, ',');
      OnePartRead(part);
    }
    if Padded(part, name) && CommaSafe(name) {
      PaddedTrims(part, name);
      PaddedCommaFree(part, name);
      SplitNoSep(part, ',');
      OnePartRead(part);
    }
  }

  lemma OnePartRead(part: string)
    ensures NonEmptyTrimmed([part]) == KeptName(part)
  {
    assert [part][1..] == [];
  }

  /** Reading a list, printing it and reading it again changes nothing. */
  lemma CommaNormalForm(s: string)
    ensures CommaNames(Join(CommaNames(s), ",")) == CommaNames(s)
  {
    SplitPartsClean(s, ',');
    NonEmptyTrimmedSafe(Split(s, ','));
    CommaListRoundTrip(CommaNames(s));
  }

  /* ---------- decimal numerals (strconv.Itoa on naturals) ---------- */

  predicate AllDigits(s: string)
  {
    forall i :: 0 <= i < |s| ==> '0' <= s[i] <= '9'
  }

  function Itoa(n: nat): (s: string)
    ensures |s| >= 1 && AllDigits(s)
  {
    if n < 10 then [('0' as int + n) as char]
    else Itoa(n / 10) + [('0' as int + n % 10) as char]
  }

  function Atoi(s: string): int
  {
    if s == [] then 0 else Atoi(s[..|s| - 1]) * 10 + (s[|s| - 1] as int - '0' as int)
  }

  lemma {:induction false} AtoiItoa(n: nat)
    ensures Atoi(Itoa(n)) == n
  {
    var s := Itoa(n);
    if n < 10 {
      assert s[..0] == [];
    } else {
      AtoiItoa(n / 10);
      assert s[..|s| - 1] == Itoa(n / 10);
    }
  }

  lemma {:induction false} ShorterHeadDiffers(a: string, i: nat, b: string, j: nat)
    requires |a| < |b|
    ensures a + "-" + Itoa(i) != b + "-" + Itoa(j)
  {
    var s, t := a + "-" + Itoa(i), b + "-" + Itoa(j);
    assert t[|b|] == '-';
    if |b| < |s| {
      assert s[|b|] == Itoa(i)[|b| - |a| - 1];
    }
  }

  /** A numeral at the end of a key can be read back, whatever precedes its dash. */
  lemma {:induction false} DashNumeralInjective(a: string, i: nat, b: string, j: nat)
    ensures a + "-" + Itoa(i) == b + "-" + Itoa(j) <==> a == b && i == j
  {
    var s, t := a + "-" + Itoa(i), b + "-" + Itoa(j);
    if |a| < |b| {
      ShorterHeadDiffers(a, i, b, j);
    } else if |b| < |a| {
      ShorterHeadDiffers(b, j, a, i);
    } else {
      assert s[..|a|] == a && t[..|b|] == b;
      assert s[|a| + 1..] == Itoa(i) && t[|b| + 1..] == Itoa(j);
      AtoiItoa(i);
      AtoiItoa(j);
    }
  }

  /* ---------- bytewise order ---------- */

  predicate Less(a: string, b: string)
  {
    b != [] && (a == [] || a[0] < b[0] || (a[0] == b[0] && Less(a[1..], b[1..])))
  }

  lemma {:induction false} LessTrichotomy(a: string, b: string)
    ensures Less(a, b) || a == b || Less(b, a)
    ensures !(Less(a, b) && Less(b, a))
    ensures !Less(a, a)
  {
    if a != [] {
      LessTrichotomy(a[1..], a[1..]);
    }
    if a != [] && b != [] {
      LessTrichotomy(a[1..], b[1..]);
      if a[0] == b[0] && a[1..] == b[1..] {
        assert a == [a[0]] + a[1..] && b == [b[0]] + b[1..];
      }
    }
  }

  lemma {:induction false} LessTransitive(a: string, b: string, c: string)
    requires Less(a, b) && Less(b, c)
    ensures Less(a, c)
  {
    if a != [] && a[0] == b[0] && b[0] == c[0] {
      LessTransitive(a[1..], b[1..], c[1..]);
    }
  }

  lemma {:induction false} LessDiffers(a: string, b: string) returns (n: nat)
    requires Less(a, b)
    ensures FirstDifference(a, b, n)
  {
    n := 0;
    if a != [] && a[0] == b[0] {
      var k := LessDiffers(a[1..], b[1..]);
      n := k + 1;
      assert a[..n] == [a[0]] + a[1..][..k] && b[..n] == [b[0]] + b[1..][..k];
    }
  }

  lemma {:induction false} DifferenceIsLess(a: string, b: string, n: nat)
    requires FirstDifference(a, b, n)
    ensures Less(a, b)
  {
    if n > 0 {
      assert a[0] == a[..n][0] && b[0] == b[..n][0];
      assert a[1..][..n - 1] == a[..n][1..] && b[1..][..n - 1] == b[..n][1..];
      DifferenceIsLess(a[1..], b[1..], n - 1);
    }
  }

  /** The order is that of the first differing byte, a prefix coming before its extensions. */
  lemma {:induction false} LessExact(a: string, b: string)
    ensures Less(a, b) <==> exists n: nat :: FirstDifference(a, b, n)
  {
    hide FirstDifference;
    if Less(a, b) {
      var n := LessDiffers(a, b);
    }
    if n: nat :| FirstDifference(a, b, n) {
      DifferenceIsLess(a, b, n);
    }
  }

  predicate FirstDifference(a: string, b: string, n: nat)
  {
    n <= |a| && n < |b| && a[..n] == b[..n] && (n == |a| || a[n] < b[n])
  }

  /* ---------- distinctness ---------- */

  predicate Distinct<T(==)>(s: seq<T>)
  {
    forall i, j :: 0 <= i < j < |s| ==> s[i] != s[j]
  }
}
