/**
 * The handful of Rust `str` operations the rename pass relies on, over `seq<char>`
 * (a `char` is a Unicode scalar value, as in Rust; byte offsets are only needed for
 * the one slice `l[1..]`, see `DropFirstByte`).
 */
module RustStr {
  import opened Wrappers

  /** `s.starts_with(p)` */
  predicate StartsWith(s: string, p: string): (b: bool)
    ensures b <==> exists t :: s == p + t
  {
    assert |p| <= |s| && s[..|p|] == p ==> s == p + s[|p|..];
    |p| <= |s| && s[..|p|] == p
  }

  /** `s.strip_prefix(p)`: the rest of `s` when `s` starts with `p`. */
  function StripPrefix(s: string, p: string): (r: Option<string>)
    ensures r.Some? <==> StartsWith(s, p)
    ensures r.Some? ==> s == p + r.value
  {
    if StartsWith(s, p) then Some(s[|p|..]) else None
  }

  /** `s.replace(c, "")` for a one-character pattern: every `c` removed, order kept. */
  function RemoveChar(s: string, c: char): (r: string)
    ensures c !in r
    ensures forall x :: x != c ==> (x in r <==> x in s)
    ensures |r| <= |s|
    ensures c !in s ==> r == s
  {
    if s == [] then []
    else if s[0] == c then RemoveChar(s[1..], c)
    else [s[0]] + RemoveChar(s[1..], c)
  }

  lemma {:induction false} RemoveCharAppend(a: string, b: string, c: char)
    ensures RemoveChar(a + b, c) == RemoveChar(a, c) + RemoveChar(b, c)
  {
    if a != [] {
      assert (a + b)[0] == a[0];
      assert (a + b)[1..] == a[1..] + b;
      RemoveCharAppend(a[1..], b, c);
      if a[0] != c {
        assert [a[0]] + (RemoveChar(a[1..], c) + RemoveChar(b, c))
            == ([a[0]] + RemoveChar(a[1..], c)) + RemoveChar(b, c);
      }
    } else {
      assert a + b == b;
    }
  }

  /** Index of the first `c` in `s`, or `|s|` when there is none. */
  function IndexOf(s: string, c: char): (i: nat)
    ensures i <= |s|
    ensures i < |s| ==> s[i] == c
    ensures forall j :: 0 <= j < i ==> s[j] != c
  {
    if s == [] then 0
    else if s[0] == c then 0
    else 1 + IndexOf(s[1..], c)
  }

  /** `s.split_once(c)`: the text before and after the first `c`. */
  function SplitOnce(s: string, c: char): (r: Option<(string, string)>)
    ensures r.None? <==> c !in s
    ensures r.Some? ==> s == r.value.0 + [c] + r.value.1 && c !in r.value.0
  {
    var i := IndexOf(s, c);
    if i == |s| then None
    else
      assert s == s[..i] + [c] + s[i + 1..];
      Some((s[..i], s[i + 1..]))
  }

  /**
   * `l[1..]` on a `&str`: the byte range from offset 1 panics unless offset 1 is a
   * character boundary, i.e. unless `l` is non-empty and its first character is
   * ASCII (one UTF-8 byte).  `None` is the panic.
   */
  function DropFirstByte(l: string): (r: Option<string>)
    ensures r.Some? <==> l != [] && l[0] as int < 0x80
    ensures r.Some? ==> l == [l[0]] + r.value
  {
    if l != [] && l[0] as int < 0x80 then Some(l[1..]) else None
  }

  /** One line as `lines()` yields it: the `\n` is dropped, then a `\r` right before it. */
  function StripLineEnd(piece: string): string {
    if piece != [] && piece[|piece| - 1] == '\r' then piece[..|piece| - 1] else piece
  }

  /**
   * `s.lines()`: split after every `\n`; each piece loses its `\n` and a `\r` before it;
   * a final piece without `\n` is kept as it is (a bare trailing `\r` included); a
   * trailing `\n` does not produce an empty last line.
   */
  function Lines(s: string): (r: seq<string>)
    ensures r == [] <==> s == []
    ensures '\n' !in s && s != [] ==> r == [s]
    decreases |s|
  {
    if s == [] then []
    else
      var i := IndexOf(s, '\n');
      if i == |s| then [s]
      else [StripLineEnd(s[..i])] + Lines(s[i + 1..])
  }

  /** No line `lines()` yields contains a line break. */
  lemma {:induction false} LinesHaveNoBreak(s: string)
    ensures forall k :: 0 <= k < |Lines(s)| ==> '\n' !in Lines(s)[k]
    decreases |s|
  {
    if s != [] {
      var i := IndexOf(s, '\n');
      if i < |s| {
        LinesHaveNoBreak(s[i + 1..]);
        var first := StripLineEnd(s[..i]);
        assert forall c :: c in first ==> c in s[..i];
      }
    }
  }

  /** The text whose lines are `ls`, each terminated by `\n`. */
  function Unlines(ls: seq<string>): string {
    if ls == [] then [] else ls[0] + "\n" + Unlines(ls[1..])
  }

  /** A line `lines()` can give back unchanged: no `\n` inside and no `\r` at its end. */
  predicate PlainLine(l: string) {
    '\n' !in l && (l == [] || l[|l| - 1] != '\r')
  }

  lemma {:induction false} UnlinesSnoc(ls: seq<string>, l: string)
    ensures Unlines(ls + [l]) == Unlines(ls) + l + "\n"
  {
    if ls != [] {
      assert (ls + [l])[1..] == ls[1..] + [l];
      UnlinesSnoc(ls[1..], l);
    }
  }

  lemma {:induction false} UnlinesAppend(a: seq<string>, b: seq<string>)
    ensures Unlines(a + b) == Unlines(a) + Unlines(b)
  {
    if a == [] {
      assert a + b == b;
    } else {
      assert (a + b)[0] == a[0];
      assert (a + b)[1..] == a[1..] + b;
      UnlinesAppend(a[1..], b);
    }
  }

  /** Splitting `\n`-terminated plain lines gives those lines back. */
  lemma {:induction false} LinesOfUnlines(ls: seq<string>)
    requires forall k :: 0 <= k < |ls| ==> PlainLine(ls[k])
    ensures Lines(Unlines(ls)) == ls
  {
    if ls != [] {
      LinesCons(ls[0], Unlines(ls[1..]));
      LinesOfUnlines(ls[1..]);
      ConsTail(ls);
    }
  }

  /** A plain line followed by `\n` is the first line of the text. */
  lemma LinesCons(head: string, rest: string)
    requires PlainLine(head)
    ensures Lines(head + "\n" + rest) == [head] + Lines(rest)
  {
    LinesSplit(head, rest);
  }

  /** Text up to its first `\n` is its first line, less a `\r` before the `\n`. */
  lemma LinesSplit(x: string, rest: string)
    requires '\n' !in x
    ensures Lines(x + "\n" + rest) == [StripLineEnd(x)] + Lines(rest)
  {
    var s := x + "\n" + rest;
    IndexOfAfter(x, rest, '\n');
    assert s[..|x|] == x;
    assert s[|x| + 1..] == rest;
  }

  /** The first `c` of `a + [c] + b` is right after `a` when `a` has none. */
  lemma {:induction false} IndexOfAfter(a: string, b: string, c: char)
    requires c !in a
    ensures IndexOf(a + [c] + b, c) == |a|
  {
    var s := a + [c] + b;
    if a != [] {
      assert s[0] == a[0];
      assert s[1..] == a[1..] + [c] + b;
      IndexOfAfter(a[1..], b, c);
    } else {
      assert s[0] == c;
    }
  }

  /** Text that ends with a line break splits independently of what follows it. */
  lemma {:induction false} LinesAppend(a: string, b: string)
    requires a != [] && a[|a| - 1] == '\n'
    ensures Lines(a + b) == Lines(a) + Lines(b)
    decreases |a|
  {
    var i := IndexOf(a, '\n');
    var x, rest := a[..i], a[i + 1..];
    assert a == x + "\n" + rest;
    assert a + b == x + "\n" + (rest + b);
    LinesSplit(x, rest);
    LinesSplit(x, rest + b);
    if rest == [] {
      assert rest + b == b;
    } else {
      LinesAppend(rest, b);
      Assoc([StripLineEnd(x)], Lines(rest), Lines(b));
    }
  }

  lemma Assoc<T>(p: seq<T>, q: seq<T>, r: seq<T>)
    ensures p + (q + r) == (p + q) + r
  {
  }

  lemma ConsTail<T>(s: seq<T>)
    requires s != []
    ensures [s[0]] + s[1..] == s
  {
  }
}
