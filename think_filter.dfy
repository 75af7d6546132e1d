/**
 * The chat client's reasoning-span filter (app/AI/ai.js, `formatAIResponse` and the
 * clean-up of the stored reply): the global replace of `/<think>[\s\S]*?<\/think>/g`
 * by the empty string, followed by `trim()`. The output of `marked.parse` is not
 * modelled; `Format` is the cleaned text that is handed to it.
 */
module ThinkFilter {
  import opened Wrappers
  import opened JsText

  const Open: string := "<think>"
  const Close: string := "</think>"

  /** `pat` occurs in `s` starting at index `k`. */
  predicate OccursAt(s: string, pat: string, k: nat) {
    k + |pat| <= |s| && s[k..k + |pat|] == pat
  }

  /** The first index at or after `from` where `pat` occurs (the lazy `*?` stops at it). */
  function IndexOf(s: string, pat: string, from: nat): Option<nat>
    decreases |s| - from
  {
    if from + |pat| > |s| then None
    else if OccursAt(s, pat, from) then Some(from)
    else IndexOf(s, pat, from + 1)
  }

  /** `IndexOf` finds the first occurrence at or after `from`, and reports none only when there is none. */
  lemma IndexOfSpec(s: string, pat: string, from: nat)
    decreases |s| - from
    ensures var r := IndexOf(s, pat, from);
      && (r.Some? ==> from <= r.value && OccursAt(s, pat, r.value))
      && (r.Some? ==> forall k :: from <= k < r.value ==> !OccursAt(s, pat, k))
      && (r.None? ==> forall k :: from <= k ==> !OccursAt(s, pat, k))
  {
    if from + |pat| <= |s| && !OccursAt(s, pat, from) {
      IndexOfSpec(s, pat, from + 1);
    }
  }

  /** Conversely, an occurrence with none before it (from `from` on) is the one `IndexOf` finds. */
  lemma {:induction false} IndexOfFirst(s: string, pat: string, from: nat, i: nat)
    requires from <= i && OccursAt(s, pat, i)
    requires forall k :: from <= k < i ==> !OccursAt(s, pat, k)
    decreases i - from
    ensures IndexOf(s, pat, from) == Some(i)
  {
    if from < i {
      IndexOfFirst(s, pat, from + 1, i);
    }
  }

  /**
   * The length of the match of `<think>[\s\S]*?<\/think>` that starts at index 0, or 0 when
   * none starts there. The first-character test only short-cuts the opener comparison.
   */
  function SpanAtStart(s: string): nat {
    if s == [] || s[0] != '<' || !OccursAt(s, Open, 0) then 0
    else match IndexOf(s, Close, |Open|)
      case None => 0
      case Some(i) => i + |Close|
  }

  /**
   * A span match at index 0 is exactly an opener, then the text up to the nearest closer,
   * then that closer; there is none when no opener starts there or no closer follows it.
   */
  lemma SpanAtStartSpec(s: string)
    ensures var n := SpanAtStart(s);
      && (n > 0 ==> |Open| + |Close| <= n <= |s| && OccursAt(s, Open, 0)
                    && OccursAt(s, Close, n - |Close|)
                    && forall k :: |Open| <= k < n - |Close| ==> !OccursAt(s, Close, k))
      && (n == 0 ==> !OccursAt(s, Open, 0) || forall k :: |Open| <= k ==> !OccursAt(s, Close, k))
  {
    if s != [] && OccursAt(s, Open, 0) {
      assert s[0] == s[..|Open|][0] == '<';
    }
    IndexOfSpec(s, Close, |Open|);
  }

  /**
   * The regular-expression replace, position by position: where a span starts it is dropped
   * and the scan resumes after it; otherwise the character is kept and the scan moves on by
   * one. (`SpanAtStart(s) <= |s|` always holds; the bound only makes the slice well-formed.)
   */
  function StripThink(s: string): string
    decreases |s|
  {
    if s == [] then []
    else if 0 < SpanAtStart(s) <= |s| then StripThink(s[SpanAtStart(s)..])
    else [s[0]] + StripThink(s[1..])
  }

  /** A character that starts no span is kept, and the scan moves on by one. */
  lemma KeepStep(s: string)
    requires s != [] && SpanAtStart(s) == 0
    ensures StripThink(s) == [s[0]] + StripThink(s[1..])
  {
  }

  /** A span at the start is dropped whole, and the scan resumes after its closer. */
  lemma DropStep(s: string)
    requires SpanAtStart(s) > 0
    ensures SpanAtStart(s) <= |s|
    ensures StripThink(s) == StripThink(s[SpanAtStart(s)..])
  {
    SpanAtStartSpec(s);
  }

  /** Removing spans never lengthens the text. */
  lemma {:induction false} StripShorter(s: string)
    decreases |s|
    ensures |StripThink(s)| <= |s|
  {
    if s != [] {
      if 0 < SpanAtStart(s) <= |s| {
        StripShorter(s[SpanAtStart(s)..]);
      } else {
        StripShorter(s[1..]);
      }
    }
  }

  /** `formatAIResponse` up to `marked.parse`: strip the spans, then trim. */
  function Format(s: string): string {
    Trim(StripThink(s))
  }

  predicate NoAngle(s: string) {
    forall i :: 0 <= i < |s| ==> s[i] != '<'
  }

  /** No complete closer anywhere in `s`. */
  predicate NoCloser(s: string) {
    forall k :: 0 <= k <= |s| ==> !OccursAt(s, Close, k)
  }

  lemma NoCloserTail(s: string, d: nat)
    requires NoCloser(s) && d <= |s|
    ensures NoCloser(s[d..])
  {
    forall k | 0 <= k ensures !OccursAt(s[d..], Close, k) {
      if OccursAt(s[d..], Close, k) {
        assert s[d + k..d + k + |Close|] == s[d..][k..k + |Close|];
        assert OccursAt(s, Close, d + k);
      }
    }
  }

  /** Text without any closer passes through untouched: an unclosed `<think>` stays in place. */
  lemma {:induction false} UnclosedKept(s: string)
    requires NoCloser(s)
    decreases |s|
    ensures StripThink(s) == s
  {
    if s != [] {
      SpanAtStartSpec(s);
      assert SpanAtStart(s) == 0;
      NoCloserTail(s, 1);
      UnclosedKept(s[1..]);
      assert [s[0]] + s[1..] == s;
    }
  }

  /** A prefix free of '<' can start no span, so it is copied unchanged. */
  lemma {:induction false} PlainPrefixKept(u: string, s: string)
    requires NoAngle(u)
    ensures StripThink(u + s) == u + StripThink(s)
  {
    if u == [] {
      assert u + s == s;
    } else {
      var t := u + s;
      calc {
        StripThink(t);
      == { assert t[0] == u[0]; KeepStep(t); assert t[1..] == u[1..] + s; }
        [u[0]] + StripThink(u[1..] + s);
      == { PlainPrefixKept(u[1..], s); }
        [u[0]] + (u[1..] + StripThink(s));
      == { ConsSplit(u, StripThink(s)); }
        u + StripThink(s);
      }
    }
  }

  /** Sequence regrouping, stated on plain variables so that it is applied without search. */
  lemma ConsSplit(h: string, t: string)
    requires h != []
    ensures [h[0]] + (h[1..] + t) == h + t
  {
    assert [h[0]] + h[1..] == h;
  }

  /**
   * A span is removed together with everything up to its nearest closer: if no closer starts
   * inside `y`, then `<think>` y `</think>` is dropped and the scan continues with `z`.
   */
  lemma SpanDropped(y: string, z: string)
    requires forall k :: 0 <= k < |y| ==> !OccursAt(y + Close + z, Close, k)
    ensures StripThink(Open + y + Close + z) == StripThink(z)
  {
    var s := Open + y + Close + z;
    var rest := y + Close + z;
    assert s == Open + rest;
    assert s[..|Open|] == Open;
    forall k | |Open| <= k < |Open| + |y| ensures !OccursAt(s, Close, k) {
      if OccursAt(s, Close, k) {
        assert s[k..k + |Close|] == rest[k - |Open|..k - |Open| + |Close|];
        assert OccursAt(rest, Close, k - |Open|);
      }
    }
    assert s[|Open| + |y|..|Open| + |y| + |Close|] == Close;
    IndexOfFirst(s, Close, |Open|, |Open| + |y|);
    assert SpanAtStart(s) == |Open| + |y| + |Close|;
    DropStep(s);
    assert s[|Open| + |y| + |Close|..] == z;
  }

  /** A closer that starts with '<' cannot start inside a '<'-free piece. */
  lemma NoAngleNoCloser(y: string, z: string)
    requires NoAngle(y)
    ensures forall k :: 0 <= k < |y| ==> !OccursAt(y + Close + z, Close, k)
  {
    forall k | 0 <= k < |y| ensures !OccursAt(y + Close + z, Close, k) {
      assert (y + Close + z)[k] == y[k];
      assert Close[0] == '<';
    }
  }

  /** The general form of "A<think>x</think>B" formatting to "AB". */
  lemma SingleSpan(a: string, x: string, b: string)
    requires NoAngle(a) && NoAngle(x) && NoAngle(b)
    ensures StripThink(a + Open + x + Close + b) == a + b
  {
    assert a + Open + x + Close + b == a + (Open + x + Close + b);
    PlainPrefixKept(a, Open + x + Close + b);
    NoAngleNoCloser(x, b);
    SpanDropped(x, b);
    PlainPrefixKept(b, []);
    assert b + [] == b;
  }

  /** A reply with one reasoning span in the middle: `"A<think>x</think>B"` is shown as `"AB"`. */
  lemma ExampleSpan(s: string)
    requires s == "A<think>x</think>B"
    ensures Format(s) == "AB"
  {
    var a, x, b := "A", "x", "B";
    assert s == a + Open + x + Close + b;
    SingleSpan(a, x, b);
    var ab := a + b;
    assert ab == "AB";
    TrimOfUnpadded(ab);
  }

  /**
   * A span split over two streamed pieces: the first piece alone is shown unchanged (no
   * closer has arrived yet), and once both are accumulated the span is gone.
   */
  lemma ExampleSplitSpan(first: string, second: string)
    requires first == "A<thi" && second == "nk>x</think>B"
    ensures Format(first) == first
    ensures Format(first + second) == "AB"
  {
    PartialPieceShown(first);
    var whole := first + second;
    assert whole == "A<think>x</think>B";
    ExampleSpan(whole);
  }

  lemma PartialPieceShown(first: string)
    requires first == "A<thi"
    ensures Format(first) == first
  {
    assert NoCloser(first) by {
      forall k | 0 <= k <= |first| ensures !OccursAt(first, Close, k) {
      }
    }
    UnclosedKept(first);
    TrimOfUnpadded(first);
  }

  /** Pairing is non-greedy: an opener pairs with the nearest following closer. */
  lemma NearestCloser(a: string, x: string, b: string)
    requires NoAngle(a) && NoAngle(x) && NoAngle(b)
    ensures StripThink(a + Open + x + Close + b + Close) == a + b + Close
  {
    var tail := b + Close;
    assert a + Open + x + Close + b + Close == a + (Open + x + Close + tail);
    PlainPrefixKept(a, Open + x + Close + tail);
    NoAngleNoCloser(x, tail);
    SpanDropped(x, tail);
    PlainPrefixKept(b, Close);
    CloserKept([]);
    assert Close + [] == Close;
    assert a + (b + Close) == a + b + Close;
  }

  /** A closer with no opener before it is ordinary text. */
  lemma CloserKept(z: string)
    ensures StripThink(Close + z) == Close + StripThink(z)
  {
    var t := Close + z;
    assert t[..|Open|][1] == '/' != Open[1];
    KeepStep(t);
    assert NoAngle(Close[1..]);
    assert t[1..] == Close[1..] + z;
    PlainPrefixKept(Close[1..], z);
    assert [t[0]] + (Close[1..] + StripThink(z)) == Close + StripThink(z);
  }

  lemma OpenerTailPlain(k: nat)
    requires 0 < k <= |Open|
    ensures NoAngle(Open[k..]) && NoAngle(Open[1..k])
  {
    assert forall i :: 1 <= i < |Open| ==> Open[i] != '<';
  }

  /**
   * Stripping is not idempotent: removing one span can join the two halves of an opener
   * (`Open[..k]` before the span, `Open[k..]` after it) into a new opener that a second pass
   * would remove. Re-rendering stays stable only because every render starts again from the
   * raw accumulator, never from a previous rendering.
   */
  lemma StripNotIdempotent(k: nat, x: string, y: string)
    requires 0 < k < |Open| && NoAngle(x) && NoAngle(y)
    ensures StripThink(Open[..k] + Open + x + Close + Open[k..] + y + Close) == Open + y + Close
    ensures StripThink(Open + y + Close) == []
  {
    JoinedOpener(k, x, y);
    SecondPassEmpties(y);
  }

  lemma JoinedOpener(k: nat, x: string, y: string)
    requires 0 < k < |Open| && NoAngle(x) && NoAngle(y)
    ensures StripThink(Open[..k] + Open + x + Close + Open[k..] + y + Close) == Open + y + Close
  {
    var head, tail := Open[..k], Open[k..];
    var z := tail + y + Close;
    assert head + tail == Open;
    Regroup(head, tail, Open, x, Close, y);
    HeadKeptSpanDropped(k, x, z);
    TailKept(k, y);
  }

  lemma Regroup(head: string, tail: string, o: string, x: string, c: string, y: string)
    requires head + tail == o
    ensures head + o + x + c + tail + y + c == head + (o + x + c + (tail + y + c))
    ensures head + (tail + y + c) == o + y + c
  {
  }

  /** The first part of a split opener is kept, and the span after it is dropped. */
  lemma HeadKeptSpanDropped(k: nat, x: string, z: string)
    requires 0 < k < |Open| && NoAngle(x)
    ensures StripThink(Open[..k] + (Open + x + Close + z)) == Open[..k] + StripThink(z)
  {
    var span := Open + x + Close + z;
    assert span[0] == '<';
    PartialOpenerKept(k, span);
    NoAngleNoCloser(x, z);
    SpanDropped(x, z);
  }

  /** A proper prefix of the opener followed by '<' starts no span and is copied. */
  lemma PartialOpenerKept(k: nat, w: string)
    requires 0 < k < |Open| && w != [] && w[0] == '<'
    ensures StripThink(Open[..k] + w) == Open[..k] + StripThink(w)
  {
    OpenerTailPlain(k);
    SplitPrefixKept(Open[..k], Open[k..], w);
  }

  lemma SplitPrefixKept(head: string, rest: string, w: string)
    requires head + rest == Open && head != [] && rest != []
    requires NoAngle(head[1..]) && NoAngle(rest)
    requires w != [] && w[0] == '<'
    ensures StripThink(head + w) == head + StripThink(w)
  {
    var s := head + w;
    var k := |head|;
    calc {
      StripThink(s);
    == { assert s[k] == w[0];
         assert !OccursAt(s, Open, 0) by {
           assert Open[k] == rest[0] != '<';
           if |Open| <= |s| { assert s[..|Open|][k] == s[k]; }
         }
         KeepStep(s);
         assert s[1..] == head[1..] + w; }
      [s[0]] + StripThink(head[1..] + w);
    == { PlainPrefixKept(head[1..], w); }
      [s[0]] + (head[1..] + StripThink(w));
    == { assert s[0] == head[0]; ConsSplit(head, StripThink(w)); }
      head + StripThink(w);
    }
  }

  /** The second part of a split opener, then '<'-free text and a closer, is kept. */
  lemma TailKept(k: nat, y: string)
    requires 0 < k < |Open| && NoAngle(y)
    ensures StripThink(Open[k..] + y + Close) == Open[k..] + y + Close
  {
    OpenerTailPlain(k);
    var p := Open[k..] + y;
    assert NoAngle(p);
    PlainPrefixKept(p, Close);
    CloserKept([]);
    assert Close + [] == Close;
  }

  /** The opener formed by the join does find a closer, so a second pass removes it. */
  lemma SecondPassEmpties(y: string)
    requires NoAngle(y)
    ensures StripThink(Open + y + Close) == []
  {
    NoAngleNoCloser(y, []);
    SpanDropped(y, []);
    assert Open + y + Close + [] == Open + y + Close;
  }
}
