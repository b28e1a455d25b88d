/** The few Python string operations the pipeline relies on: `str.find`,
    `str.split(sep)`, `sep.join(parts)`, list slicing `xs[k:]`, the `%`
    formatting operator with `%s` conversions, `str()` of an int, and POSIX
    `os.path.join`. Each is given by a definition that follows CPython's
    behaviour and is tied by lemmas to an independent description. */
module PyStrings {

  datatype Option<T> = None | Some(value: T)

  /** `pat` occurs in `s` starting at index `i`. */
  predicate OccursAt(s: string, pat: string, i: nat) {
    i + |pat| <= |s| && s[i..i + |pat|] == pat
  }

  ghost predicate Contains(s: string, pat: string) {
    exists i: nat :: OccursAt(s, pat, i)
  }

  /** No occurrence of `pat` starts in `[lo, hi)`. */
  ghost predicate AbsentBetween(s: string, pat: string, lo: nat, hi: nat) {
    forall j: nat :: lo <= j < hi ==> !OccursAt(s, pat, j)
  }

  /** `s.find(pat, start)`: the leftmost occurrence at or after `start`. */
  function FindFrom(s: string, pat: string, start: nat): (r: Option<nat>)
    decreases |s| - start
    ensures r.Some? ==> start <= r.value && OccursAt(s, pat, r.value)
    ensures r.Some? ==> AbsentBetween(s, pat, start, r.value)
    ensures r.None? ==> AbsentBetween(s, pat, start, |s| + 1)
  {
    if start + |pat| > |s| then None
    else if s[start..start + |pat|] == pat then Some(start)
    else FindFrom(s, pat, start + 1)
  }

  function Find(s: string, pat: string): Option<nat> {
    FindFrom(s, pat, 0)
  }

  /** `s.split(sep)` for a non-empty separator (CPython raises ValueError on an
      empty one): cut at the leftmost occurrence, then split the rest. */
  function Split(s: string, sep: string): (parts: seq<string>)
    requires |sep| > 0
    ensures |parts| >= 1
    decreases |s|
  {
    match Find(s, sep)
    case None => [s]
    case Some(i) => [s[..i]] + Split(s[i + |sep|..], sep)
  }

  /** `sep.join(parts)`. */
  function Join(parts: seq<string>, sep: string): string
  {
    if |parts| == 0 then ""
    else if |parts| == 1 then parts[0]
    else parts[0] + sep + Join(parts[1..], sep)
  }

  /** Python's `xs[k:]`: an index past the end gives the empty list. */
  function Drop<T>(xs: seq<T>, k: nat): (r: seq<T>)
    ensures |r| == if k <= |xs| then |xs| - k else 0
    ensures forall i :: 0 <= i < |r| ==> r[i] == xs[k + i]
  {
    if k <= |xs| then xs[k..] else []
  }

  /** The number of occurrences of character `c` in `s`. */
  function Count(s: string, c: char): nat
  {
    if |s| == 0 then 0 else (if s[0] == c then 1 else 0) + Count(s[1..], c)
  }

  lemma {:induction false} CountConcat(a: string, b: string, c: char)
    ensures Count(a + b, c) == Count(a, c) + Count(b, c)
  {
    if |a| > 0 {
      assert (a + b)[1..] == a[1..] + b;
      CountConcat(a[1..], b, c);
    } else {
      assert a + b == b;
    }
  }

  lemma {:induction false} CountAbsent(s: string, c: char)
    requires forall j :: 0 <= j < |s| ==> s[j] != c
    ensures Count(s, c) == 0
  {
    if |s| > 0 {
      CountAbsent(s[1..], c);
    }
  }

  lemma JoinCons(x: string, ys: seq<string>, sep: string)
    requires |ys| >= 1
    ensures Join([x] + ys, sep) == x + sep + Join(ys, sep)
  {
    assert ([x] + ys)[1..] == ys;
  }

  lemma SplitSome(s: string, sep: string, i: nat)
    requires |sep| > 0 && Find(s, sep) == Some(i)
    ensures i + |sep| <= |s|
    ensures Split(s, sep) == [s[..i]] + Split(s[i + |sep|..], sep)
  {
  }

  /** Splitting and joining with the same separator gives back the string. */
  lemma {:induction false} JoinSplit(s: string, sep: string)
    requires |sep| > 0
    ensures Join(Split(s, sep), sep) == s
    decreases |s|
  {
    var f := Find(s, sep);
    if f.Some? {
      var i := f.value;
      SplitSome(s, sep, i);
      var rest := s[i + |sep|..];
      JoinSplit(rest, sep);
      JoinCons(s[..i], Split(rest, sep), sep);
      assert s == s[..i] + sep + rest;
    }
  }

  /** The first piece of `s.split(sep)` is the prefix of `s` before the first
      occurrence of `sep`: no occurrence starts inside it (not even one that
      runs past its end), `sep` follows it when `sep` occurs at all, and it is
      all of `s` when `sep` does not occur. */
  lemma SplitHead(s: string, sep: string)
    requires |sep| > 0
    ensures var h := Split(s, sep)[0];
      && |h| <= |s| && h == s[..|h|]
      && !Contains(h, sep)
      && AbsentBetween(s, sep, 0, |h|)
      && (!Contains(s, sep) ==> h == s)
      && (Contains(s, sep) ==> OccursAt(s, sep, |h|))
  {
    var h := Split(s, sep)[0];
    var f := Find(s, sep);
    if f.Some? {
      var i := f.value;
      assert h == s[..i];
      forall j: nat ensures !OccursAt(h, sep, j) {
        if j + |sep| <= |h| {
          assert h[j..j + |sep|] == s[j..j + |sep|];
          assert !OccursAt(s, sep, j);
        }
      }
    }
  }

  /** An occurrence with none before it is what `find` returns. */
  lemma {:induction false} FindFromFirst(s: string, pat: string, start: nat, i: nat)
    requires start <= i && OccursAt(s, pat, i) && AbsentBetween(s, pat, start, i)
    ensures FindFrom(s, pat, start) == Some(i)
    decreases i - start
  {
    if start < i {
      assert !OccursAt(s, pat, start);
      FindFromFirst(s, pat, start + 1, i);
    }
  }

  /** Taking the first piece twice is the same as taking it once. */
  lemma SplitHeadIdempotent(s: string, sep: string)
    requires |sep| > 0
    ensures Split(Split(s, sep)[0], sep)[0] == Split(s, sep)[0]
  {
    SplitHead(s, sep);
    var h := Split(s, sep)[0];
    assert Find(h, sep).None?;
  }

  lemma DropCons<T>(x: T, ys: seq<T>, n: nat)
    requires n >= 1
    ensures Drop([x] + ys, n) == Drop(ys, n - 1)
  {
  }

  lemma FindCharNone(s: string, c: char)
    requires Find(s, [c]).None?
    ensures Count(s, c) == 0
  {
    forall j | 0 <= j < |s| ensures s[j] != c {
      assert !OccursAt(s, [c], j);
      assert s[j..j + 1] == [s[j]];
    }
    CountAbsent(s, c);
  }

  lemma FindCharSome(s: string, c: char, i: nat)
    requires Find(s, [c]) == Some(i)
    ensures i < |s| && s[i] == c && Count(s[..i], c) == 0
    ensures Count(s, c) == 1 + Count(s[i + 1..], c)
  {
    assert s[i..i + 1] == [c];
    forall j | 0 <= j < i ensures s[..i][j] != c {
      assert !OccursAt(s, [c], j);
      assert s[j..j + 1] == [s[j]];
    }
    CountAbsent(s[..i], c);
    assert s == s[..i] + ([c] + s[i + 1..]);
    CountConcat(s[..i], [c] + s[i + 1..], c);
    CountConcat([c], s[i + 1..], c);
  }

  lemma CountAfterFirst(s: string, c: char, i: nat, k': nat)
    requires i < |s| && s[i] == c && Count(s[..i], c) == 0
    requires k' < |s| - i - 1
    ensures Count(s[..i + 1 + k'], c) == 1 + Count(s[i + 1..][..k'], c)
  {
    var rest := s[i + 1..];
    assert s[..i + 1 + k'] == s[..i] + ([c] + rest[..k']);
    CountConcat(s[..i], [c] + rest[..k'], c);
    CountConcat([c], rest[..k'], c);
  }

  /** Index `k` holds the n-th occurrence (counting from 1) of `c` in `s`. */
  ghost predicate NthOccurrence(s: string, c: char, n: nat, k: nat) {
    k < |s| && s[k] == c && Count(s[..k], c) == n - 1
  }

  /** Taking a longer prefix past an occurrence of `c` counts it. */
  lemma CountPrefixGrows(s: string, c: char, i: nat, j: nat)
    requires i < j <= |s| && s[i] == c
    ensures Count(s[..j], c) >= Count(s[..i], c) + 1
  {
    assert s[..j] == s[..i] + s[i..j];
    CountConcat(s[..i], s[i..j], c);
    assert s[i..j][0] == c;
  }

  /** There is only one n-th occurrence. */
  lemma NthOccurrenceUnique(s: string, c: char, n: nat, k1: nat, k2: nat)
    requires NthOccurrence(s, c, n, k1) && NthOccurrence(s, c, n, k2)
    ensures k1 == k2
  {
    if k1 < k2 {
      CountPrefixGrows(s, c, k1, k2);
    } else if k2 < k1 {
      CountPrefixGrows(s, c, k2, k1);
    }
  }

  /** `sep.join(s.split(sep)[n:])` for a one-character separator is what
      follows the n-th occurrence of that character, or empty when there are
      fewer than n. */
  lemma {:induction false} JoinDropSplit(s: string, c: char, n: nat)
    requires n >= 1
    ensures Count(s, c) < n ==> Join(Drop(Split(s, [c]), n), [c]) == ""
    ensures Count(s, c) >= n ==>
      exists k: nat :: NthOccurrence(s, c, n, k) && Join(Drop(Split(s, [c]), n), [c]) == s[k + 1..]
    decreases |s|
  {
    var sep := [c];
    var f := Find(s, sep);
    if f.None? {
      FindCharNone(s, c);
    } else {
      var i := f.value;
      var rest := s[i + 1..];
      FindCharSome(s, c, i);
      SplitSome(s, sep, i);
      DropCons(s[..i], Split(rest, sep), n);
      if n == 1 {
        JoinSplit(rest, sep);
        assert NthOccurrence(s, c, n, i);
      } else {
        JoinDropSplit(rest, c, n - 1);
        if Count(s, c) >= n {
          var k': nat :| NthOccurrence(rest, c, n - 1, k')
                          && Join(Drop(Split(rest, sep), n - 1), sep) == rest[k' + 1..];
          CountAfterFirst(s, c, i, k');
          assert s[i + 1 + k' + 1..] == rest[k' + 1..];
          assert NthOccurrence(s, c, n, i + 1 + k');
        }
      }
    }
  }

  /** The `%` operator with `%s` and `%%` conversions: `None` stands for the
      TypeError Python raises when the argument count does not match or the
      template uses another conversion. */
  function Format(template: string, args: seq<string>): (r: Option<string>)
    decreases |template|
  {
    if |template| == 0 then
      (if |args| == 0 then Some("") else None)
    else if template[0] != '%' then
      match Format(template[1..], args)
      case None => None
      case Some(rest) => Some([template[0]] + rest)
    else if |template| >= 2 && template[1] == 's' then
      if |args| == 0 then None
      else match Format(template[2..], args[1..])
        case None => None
        case Some(rest) => Some(args[0] + rest)
    else if |template| >= 2 && template[1] == '%' then
      match Format(template[2..], args)
      case None => None
      case Some(rest) => Some("%" + rest)
    else None
  }

  /** Literal text without `%` is copied through unchanged. */
  lemma {:induction false} FormatLiteral(lit: string, rest: string, args: seq<string>)
    requires '%' !in lit
    ensures Format(lit + rest, args) ==
      match Format(rest, args)
      case None => None
      case Some(out) => Some(lit + out)
    decreases |lit|
  {
    if |lit| == 0 {
      assert lit + rest == rest;
      if Format(rest, args).Some? {
        assert lit + Format(rest, args).value == Format(rest, args).value;
      }
    } else {
      assert (lit + rest)[1..] == lit[1..] + rest;
      FormatLiteral(lit[1..], rest, args);
      if Format(rest, args).Some? {
        assert [lit[0]] + (lit[1..] + Format(rest, args).value) == lit + Format(rest, args).value;
      }
    }
  }

  /** A `%s` placeholder takes the next argument. */
  lemma FormatPlaceholder(rest: string, x: string, args: seq<string>)
    ensures Format("%s" + rest, [x] + args) ==
      match Format(rest, args)
      case None => None
      case Some(out) => Some(x + out)
  {
    var t := "%s" + rest;
    assert t[0] == '%' && t[1] == 's' && t[2..] == rest;
    assert ([x] + args)[1..] == args;
  }

  /** A template with two `%s` placeholders and no other `%` substitutes the
      first argument at the first placeholder and the second at the second. */
  lemma FormatTwo(a: string, b: string, c: string, x: string, y: string)
    requires '%' !in a && '%' !in b && '%' !in c
    ensures Format(a + "%s" + b + "%s" + c, [x, y]) == Some(a + x + b + y + c)
  {
    FormatLiteral(c, "", []);
    assert c + "" == c;
    FormatPlaceholder(c, y, []);
    assert [y] + [] == [y];
    FormatLiteral(b, "%s" + c, [y]);
    FormatPlaceholder(b + ("%s" + c), x, [y]);
    assert [x] + [y] == [x, y];
    FormatLiteral(a, "%s" + (b + ("%s" + c)), [x, y]);
    assert a + ("%s" + (b + ("%s" + c))) == a + "%s" + b + "%s" + c;
    assert a + (x + (b + (y + c))) == a + x + b + y + c;
  }

  /** POSIX `os.path.join` of two components: an absolute second component
      replaces the first; otherwise one `/` is put between them unless the
      first is empty or already ends in `/`. */
  function PathJoin(a: string, b: string): (r: string)
    ensures |b| > 0 && b[0] != '/' && |a| > 0 && a[|a| - 1] != '/' ==> r == a + "/" + b
  {
    if |b| > 0 && b[0] == '/' then b
    else if |a| == 0 || a[|a| - 1] == '/' then a + b
    else a + "/" + b
  }

  function Digit(d: nat): char
    requires d < 10
  {
    "0123456789"[d]
  }

  function NatText(n: nat): (r: string)
    ensures |r| > 0 && r[0] != '-'
    decreases n
  {
    if n < 10 then [Digit(n)] else NatText(n / 10) + [Digit(n % 10)]
  }

  /** `str(i)` for an int. */
  function IntText(i: int): (r: string)
    ensures |r| > 0 && (r[0] == '-' <==> i < 0)
  {
    if i < 0 then "-" + NatText(-i) else NatText(i)
  }
}
