/**
 Byte-bounded and character-bounded text buffers, and the byte/character arithmetic of the
 document caret.  A string is a sequence of characters; its bytes are those of UTF-8.
 */
module TextBuffers {

  const MAX_CHARS: nat := 4096
  const MAX_DICTATION_BYTES: nat := 4096

  function Width(c: char): (w: nat)
    ensures 1 <= w <= 4
  {
    var code := c as int;
    if code < 0x80 then 1 else if code < 0x800 then 2 else if code < 0x10000 then 3 else 4
  }

  /** Length in bytes. */
  function Bytes(s: string): nat {
    if s == [] then 0 else Width(s[0]) + Bytes(s[1..])
  }

  /** Byte offset of character number `n`, or the length when there is none. */
  function ByteIndex(s: string, n: nat): nat {
    Bytes(s[..Min(n, |s|)])
  }

  /** Number of whole characters in the first `b` bytes. */
  function CharIndex(s: string, b: nat): (n: nat)
    ensures n <= |s|
  {
    if s == [] || b < Width(s[0]) then 0 else 1 + CharIndex(s[1..], b - Width(s[0]))
  }

  predicate IsBoundary(s: string, b: nat) {
    ByteIndex(s, CharIndex(s, b)) == b
  }

  /** The byte slice `s[..b]`; slicing inside a character is a fault. */
  function Before(s: string, b: nat): string
    requires IsBoundary(s, b)
  {
    s[..CharIndex(s, b)]
  }

  function From(s: string, b: nat): string
    requires IsBoundary(s, b)
  {
    s[CharIndex(s, b)..]
  }

  function Min(a: nat, b: nat): nat { if a < b then a else b }

  function Minus(a: nat, b: nat): nat { if a < b then 0 else a - b }

  // ----- the bytes of a character -----

  /** The encoding of a character (section 3 of RFC 3629). */
  function Utf8(c: char): seq<int> {
    var code := c as int;
    if code < 0x80 then [code]
    else if code < 0x800 then [0xC0 + code / 64, 0x80 + code % 64]
    else if code < 0x10000 then [0xE0 + code / 4096, 0x80 + code / 64 % 64, 0x80 + code % 64]
    else [0xF0 + code / 262144, 0x80 + code / 4096 % 64, 0x80 + code / 64 % 64, 0x80 + code % 64]
  }

  /** The code point that bytes encode. */
  function Decoded(b: seq<int>): int {
    match |b|
    case 1 => b[0]
    case 2 => (b[0] - 0xC0) * 64 + (b[1] - 0x80)
    case 3 => (b[0] - 0xE0) * 4096 + (b[1] - 0x80) * 64 + (b[2] - 0x80)
    case 4 => (b[0] - 0xF0) * 262144 + (b[1] - 0x80) * 4096 + (b[2] - 0x80) * 64 + (b[3] - 0x80)
    case _ => -1
  }

  /** How many bytes the first byte of a character announces. */
  function Announced(b: int): nat {
    if b < 0x80 then 1 else if b < 0xC0 then 0 else if b < 0xE0 then 2 else if b < 0xF0 then 3 else 4
  }

  /** `Width` is the length of the encoding: the bytes decode to the character, its first byte announces that many, and
      no later byte can be taken for a first one. */
  lemma {:induction false} WidthIsEncodedLength(c: char)
    ensures |Utf8(c)| == Width(c) && Decoded(Utf8(c)) == c as int
    ensures Announced(Utf8(c)[0]) == Width(c)
    ensures forall i :: 1 <= i < Width(c) ==> Announced(Utf8(c)[i]) == 0
    ensures forall i :: 0 <= i < Width(c) ==> 0 <= Utf8(c)[i] < 256
  {
    SixBits(c as int);
  }

  lemma {:induction false} SixBits(code: int)
    requires 0 <= code
    ensures code == code / 64 * 64 + code % 64
    ensures code / 64 == code / 4096 * 64 + code / 64 % 64
    ensures code / 4096 == code / 262144 * 64 + code / 4096 % 64
  {
    assert code / 64 / 64 == code / 4096;
    assert code / 4096 / 64 == code / 262144;
  }

  function Encoded(s: string): seq<int> {
    if s == [] then [] else Utf8(s[0]) + Encoded(s[1..])
  }

  /** `Bytes` counts the bytes of the encoded text. */
  lemma {:induction false} BytesIsEncodedLength(s: string)
    ensures |Encoded(s)| == Bytes(s)
  {
    if s != [] {
      WidthIsEncodedLength(s[0]);
      BytesIsEncodedLength(s[1..]);
    }
  }

  // ----- byte and character indices agree -----

  lemma {:induction false} BytesAppend(a: string, b: string)
    ensures Bytes(a + b) == Bytes(a) + Bytes(b)
  {
    if a == [] {
      assert a + b == b;
    } else {
      assert (a + b)[1..] == a[1..] + b;
      BytesAppend(a[1..], b);
    }
  }

  /** Character to byte and back. */
  lemma {:induction false} RoundTrip(s: string, n: nat)
    requires n <= |s|
    ensures CharIndex(s, Bytes(s[..n])) == n && IsBoundary(s, Bytes(s[..n]))
  {
    if n > 0 {
      assert s[..n][0] == s[0] && s[..n][1..] == s[1..][..n - 1];
      RoundTrip(s[1..], n - 1);
    }
  }

  lemma {:induction false} IndexIsBoundary(s: string, n: nat)
    ensures IsBoundary(s, ByteIndex(s, n)) && CharIndex(s, ByteIndex(s, n)) == Min(n, |s|)
  {
    RoundTrip(s, Min(n, |s|));
  }

  lemma {:induction false} PrefixGrows(s: string, i: nat, j: nat)
    requires i < j <= |s|
    ensures Bytes(s[..i]) + (j - i) <= Bytes(s[..j])
    decreases j - i
  {
    assert s[..j] == s[..j - 1] + [s[j - 1]];
    BytesAppend(s[..j - 1], [s[j - 1]]);
    assert Bytes([s[j - 1]]) == Width(s[j - 1]) + Bytes([]);
    if i < j - 1 {
      PrefixGrows(s, i, j - 1);
    }
  }

  lemma {:induction false} CharsFitBytes(s: string)
    ensures |s| <= Bytes(s)
  {
    if |s| > 0 {
      PrefixGrows(s, 0, |s|);
      assert s[..|s|] == s;
    }
  }

  // ----- insertion -----

  function Spliced(s: string, text: string, n: nat): string {
    s[..Min(n, |s|)] + text + s[Min(n, |s|)..]
  }

  /** `k` characters of `text` respect both limits on top of `s`. */
  predicate Fits(s: string, text: string, k: nat)
    requires k <= |text|
  {
    Bytes(text[..k]) <= Minus(MAX_DICTATION_BYTES, Bytes(s)) && k <= Minus(MAX_CHARS, |s|)
  }

  /** `k` is the longest such prefix. */
  ghost predicate Longest(s: string, text: string, k: nat) {
    k <= |text| && Fits(s, text, k) && forall j :: k < j <= |text| ==> !Fits(s, text, j)
  }

  function Deleted(s: string, start: nat, end: nat): string {
    var from := Min(start, |s|);
    var to := Min(end, |s|);
    s[..from] + s[if to < from then from else to..]
  }

  class PasswordBuffer {
    var text: string

    constructor ()
      ensures text == ""
    {
      text := "";
    }

    method InsertText(added: string, character: nat) returns (inserted: nat)
      modifies this
      ensures inserted == Min(|added|, Minus(MAX_CHARS, |old(text)|))
      ensures text == Spliced(old(text), added[..inserted], character)
    {
      var index := ByteIndex(text, character);
      IndexIsBoundary(text, character);
      var remaining := Minus(MAX_CHARS, |text|);
      var next := Before(text, index);
      ghost var head := next;
      inserted := 0;
      while inserted < |added| && inserted < remaining
        invariant inserted <= |added| && inserted <= remaining
        invariant next == head + added[..inserted]
      {
        assert added[..inserted + 1] == added[..inserted] + [added[inserted]];
        next := next + [added[inserted]];
        inserted := inserted + 1;
      }
      next := next + From(text, index);
      text := next;
    }

    method DeleteCharRange(start: nat, end: nat)
      modifies this
      ensures text == Deleted(old(text), start, end)
    {
      var from := ByteIndex(text, start);
      var to := ByteIndex(text, end);
      IndexIsBoundary(text, start);
      IndexIsBoundary(text, end);
      OrderOfIndices(text, start, end);
      if to < from {
        to := from;
      }
      text := Before(text, from) + From(text, to);
    }
  }

  lemma {:induction false} OrderOfIndices(s: string, a: nat, b: nat)
    ensures ByteIndex(s, a) < ByteIndex(s, b) <==> Min(a, |s|) < Min(b, |s|)
  {
    var i, j := Min(a, |s|), Min(b, |s|);
    if i < j {
      PrefixGrows(s, i, j);
    } else if j < i {
      PrefixGrows(s, j, i);
    }
  }

  class ReviewBuffer {
    const inner: PasswordBuffer

    constructor ()
      ensures fresh(inner) && inner.text == ""
    {
      inner := new PasswordBuffer();
    }

    /** Splices in the longest character prefix that respects both limits. */
    method InsertText(added: string, index: nat) returns (inserted: nat)
      modifies inner
      ensures Longest(old(inner.text), added, inserted)
      ensures inner.text == Spliced(old(inner.text), added[..inserted], index)
      ensures Bytes(inner.text) == Bytes(old(inner.text)) + Bytes(added[..inserted])
      ensures Bytes(old(inner.text)) <= MAX_DICTATION_BYTES ==>
                Bytes(inner.text) <= MAX_DICTATION_BYTES && |inner.text| <= MAX_CHARS
      ensures Bytes(old(inner.text)) > MAX_DICTATION_BYTES ==> inner.text == old(inner.text)
    {
      ghost var before := inner.text;
      var remaining := Minus(MAX_DICTATION_BYTES, Bytes(inner.text));
      var end, at := 0, 0;
      while at < |added| && end + Width(added[at]) <= remaining
        invariant at <= |added| && end == Bytes(added[..at]) && end <= remaining
        invariant inner.text == before
      {
        NextPrefix(added, at);
        end := end + Width(added[at]);
        at := at + 1;
      }
      RoundTrip(added, at);
      var accepted := Before(added, end);
      inserted := inner.InsertText(accepted, index);
      assert accepted[..inserted] == added[..inserted];
      PrefixIsLongest(before, added, at, inserted);
      SplicedBytes(before, added[..inserted], index);
      CharsFitBytes(inner.text);
      if Bytes(before) > MAX_DICTATION_BYTES {
        CharsFitBytes(added[..inserted]);
        assert added[..inserted] == [];
        assert inner.text == before;
      }
    }

    method DeleteCharRange(start: nat, end: nat)
      modifies inner
      ensures inner.text == Deleted(old(inner.text), start, end)
    {
      inner.DeleteCharRange(start, end);
    }
  }

  lemma {:induction false} NextPrefix(s: string, at: nat)
    requires at < |s|
    ensures Bytes(s[..at + 1]) == Bytes(s[..at]) + Width(s[at])
  {
    assert s[..at + 1] == s[..at] + [s[at]];
    BytesAppend(s[..at], [s[at]]);
    assert Bytes([s[at]]) == Width(s[at]) + Bytes([]);
  }

  lemma {:induction false} PrefixIsLongest(s: string, added: string, at: nat, k: nat)
    requires at <= |added| && Bytes(added[..at]) <= Minus(MAX_DICTATION_BYTES, Bytes(s))
    requires at < |added| ==> Bytes(added[..at]) + Width(added[at]) > Minus(MAX_DICTATION_BYTES, Bytes(s))
    requires k == Min(at, Minus(MAX_CHARS, |s|))
    ensures Longest(s, added, k)
  {
    if k < at {
      PrefixGrows(added, k, at);
    }
    forall j | k < j <= |added| ensures !Fits(s, added, j) {
      if j > at {
        NextPrefix(added, at);
        if j > at + 1 {
          PrefixGrows(added, at + 1, j);
        }
      }
    }
  }

  lemma {:induction false} SplicedBytes(s: string, text: string, n: nat)
    ensures Bytes(Spliced(s, text, n)) == Bytes(s) + Bytes(text)
  {
    var m := Min(n, |s|);
    BytesAppend(s[..m] + text, s[m..]);
    BytesAppend(s[..m], text);
    BytesAppend(s[..m], s[m..]);
    assert s[..m] + s[m..] == s;
  }

  /** Deleting what was just inserted restores the text exactly when the index was in range
      (or nothing was inserted). */
  lemma {:induction false} DeleteUndoesInsert(s: string, text: string, n: nat)
    ensures Deleted(Spliced(s, text, n), n, n + |text|) == s <==> n <= |s| || text == []
  {
    var t := Spliced(s, text, n);
    var m := Min(n, |s|);
    assert |t| == |s| + |text|;
    if n <= |s| {
      assert t[..n] == s[..n] && t[n + |text|..] == s[n..];
      assert s[..n] + s[n..] == s;
    } else if text == [] {
      assert t == s;
      assert s[..|s|] + s[|s|..] == s;
    } else {
      assert |Deleted(t, n, n + |text|)| == Min(n, |t|);
    }
  }

  // ----- the document caret -----

  /** What the registry makes of replacing the bytes `start..end` by `text`. */
  function Replaced(s: string, start: nat, end: nat, text: string): string
    requires IsBoundary(s, start) && IsBoundary(s, end)
  {
    Before(s, start) + text + From(s, end)
  }

  /** The caret character index computed after a dictation insert. */
  method CaretAfter(updated: string, previousLength: nat, start: nat, end: nat, ghost s: string, ghost text: string)
    returns (caret: nat)
    requires start <= end && IsBoundary(s, start) && IsBoundary(s, end)
    requires updated == Replaced(s, start, end, text) && previousLength == Bytes(s)
    ensures caret == CharIndex(s, start) + |text|
    ensures updated[..caret] == Before(s, start) + text
  {
    ReplacedBytes(s, start, end, text);
    var inserted := Bytes(updated) - (previousLength - (end - start));
    ghost var head := Before(s, start) + text;
    assert updated[..|head|] == head;
    BytesAppend(Before(s, start), text);
    RoundTrip(updated, |head|);
    caret := |Before(updated, start + inserted)|;
  }

  lemma {:induction false} ReplacedBytes(s: string, start: nat, end: nat, text: string)
    requires start <= end && IsBoundary(s, start) && IsBoundary(s, end)
    ensures Bytes(Before(s, start)) == start && end <= Bytes(s)
    ensures Bytes(Replaced(s, start, end, text)) == Bytes(s) - (end - start) + Bytes(text)
  {
    BytesAppend(Before(s, start) + text, From(s, end));
    BytesAppend(Before(s, start), text);
    BytesAppend(Before(s, end), From(s, end));
    assert Before(s, end) + From(s, end) == s;
  }

  /** From a rendered character selection `p..q` to bytes and back to the caret: dictation over the
      selection puts the caret just after the inserted text. */
  lemma {:induction false} CaretFollowsSelection(s: string, p: nat, q: nat, text: string)
    requires p <= q <= |s|
    ensures var start, end := ByteIndex(s, p), ByteIndex(s, q);
            && start <= end && IsBoundary(s, start) && IsBoundary(s, end)
            && Replaced(s, start, end, text) == s[..p] + text + s[q..]
            && CharIndex(s, start) + |text| == p + |text|
            && Bytes(Replaced(s, start, end, text)) - (Bytes(s) - (end - start)) == Bytes(text)
  {
    IndexIsBoundary(s, p);
    IndexIsBoundary(s, q);
    OrderOfIndices(s, q, p);
    ReplacedBytes(s, ByteIndex(s, p), ByteIndex(s, q), text);
  }
}
