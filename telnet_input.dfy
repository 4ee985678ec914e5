/**
 * The filter `receber_input` runs over the bytes of one `recv` before it
 * decodes them: every Telnet IAC byte (0xFF) is dropped together with the
 * two bytes that follow it (the option command and option code); every
 * other byte the scan reaches is kept, in order.
 */
module TelnetInput {

  type Byte = bv8

  /** Telnet's "interpret as command" byte. */
  const IAC: Byte := 0xFF

  /** The bytes of `s` from position `i` on; empty once `i` is past the end. */
  function From(s: seq<Byte>, i: nat): seq<Byte>
  {
    if i <= |s| then s[i..] else []
  }

  /** What the scan keeps of `raw`. */
  function StripIac(raw: seq<Byte>): seq<Byte>
    decreases |raw|
  {
    if raw == [] then []
    else if raw[0] == IAC then StripIac(From(raw, 3))
    else [raw[0]] + StripIac(raw[1..])
  }

  /**
   * The loop of `receber_input`: walk an index over the received bytes,
   * jump three places at an IAC, otherwise append the byte to the output.
   */
  method FilterIac(raw: seq<Byte>) returns (clean: seq<Byte>)
    ensures clean == StripIac(raw)
    ensures |clean| <= |raw|
    ensures IAC !in clean
  {
    clean := [];
    var i: nat := 0;
    while i < |raw|
      invariant clean + StripIac(From(raw, i)) == StripIac(raw)
    {
      FromStep(raw, i);
      if raw[i] == IAC {
        i := i + 3;
      } else {
        clean := clean + [raw[i]];
        i := i + 1;
      }
    }
    StripIacShorter(raw);
    StripIacHasNoIac(raw);
  }

  /** One step of the scan, seen from position `i`. */
  lemma FromStep(raw: seq<Byte>, i: nat)
    requires i < |raw|
    ensures raw[i] == IAC ==> StripIac(From(raw, i)) == StripIac(From(raw, i + 3))
    ensures raw[i] != IAC ==> StripIac(From(raw, i)) == [raw[i]] + StripIac(From(raw, i + 1))
  {
    var t := From(raw, i);
    assert t[0] == raw[i];
    if raw[i] == IAC {
      assert From(t, 3) == From(raw, i + 3);
    } else {
      assert t[1..] == From(raw, i + 1);
    }
  }

  /** The output is never longer than the input. */
  lemma {:induction false} StripIacShorter(raw: seq<Byte>)
    ensures |StripIac(raw)| <= |raw|
    decreases |raw|
  {
    if raw != [] {
      if raw[0] == IAC { StripIacShorter(From(raw, 3)); } else { StripIacShorter(raw[1..]); }
    }
  }

  /** No IAC byte survives the filter, not even one that stood in an option position. */
  lemma {:induction false} StripIacHasNoIac(raw: seq<Byte>)
    ensures IAC !in StripIac(raw)
    decreases |raw|
  {
    if raw != [] {
      if raw[0] == IAC { StripIacHasNoIac(From(raw, 3)); } else { StripIacHasNoIac(raw[1..]); }
    }
  }

  /** Input without an IAC passes unchanged, so the shortcut taken when `IAC not in raw_data` agrees with the filter. */
  lemma {:induction false} StripIacIdentity(raw: seq<Byte>)
    requires IAC !in raw
    ensures StripIac(raw) == raw
    decreases |raw|
  {
    if raw != [] {
      assert raw[0] != IAC;
      StripIacIdentity(raw[1..]);
    }
  }

  /**
   * The filter takes a complete IAC sequence out of the middle of the data:
   * the IAC-free bytes before it are kept, the IAC and the two bytes after it
   * (whatever they are) are dropped, and the scan resumes after them.
   */
  lemma {:induction false} StripIacDropsCommand(before: seq<Byte>, x: Byte, y: Byte, after: seq<Byte>)
    requires IAC !in before
    ensures StripIac(before + [IAC, x, y] + after) == before + StripIac(after)
    decreases |before|
  {
    var s := before + [IAC, x, y] + after;
    if before == [] {
      assert s[0] == IAC && From(s, 3) == after;
    } else {
      assert s[0] == before[0] != IAC;
      assert s[1..] == before[1..] + [IAC, x, y] + after;
      StripIacDropsCommand(before[1..], x, y, after);
    }
  }

  /** An IAC cut short by the end of the data drops what is left of it. */
  lemma {:induction false} StripIacDropsTruncated(before: seq<Byte>, rest: seq<Byte>)
    requires IAC !in before
    requires |rest| <= 2
    ensures StripIac(before + [IAC] + rest) == before
    decreases |before|
  {
    var s := before + [IAC] + rest;
    if before == [] {
      assert s[0] == IAC && From(s, 3) == [];
    } else {
      assert s[0] == before[0] != IAC;
      assert s[1..] == before[1..] + [IAC] + rest;
      StripIacDropsTruncated(before[1..], rest);
    }
  }

  /** `a` can be obtained from `b` by deleting elements: it keeps their order. */
  ghost predicate IsSubsequence(a: seq<Byte>, b: seq<Byte>)
    decreases |b|
  {
    if a == [] then true
    else if b == [] then false
    else (a[0] == b[0] && IsSubsequence(a[1..], b[1..])) || IsSubsequence(a, b[1..])
  }

  lemma {:induction false} SubsequenceDropPrefix(a: seq<Byte>, b: seq<Byte>, n: nat)
    requires IsSubsequence(a, From(b, n))
    ensures IsSubsequence(a, b)
    decreases n
  {
    if n > 0 && b != [] {
      if n <= |b| {
        assert From(b[1..], n - 1) == From(b, n);
      } else {
        assert From(b[1..], n - 1) == [];
      }
      SubsequenceDropPrefix(a, b[1..], n - 1);
      if a != [] {
        assert IsSubsequence(a, b[1..]);
      }
    }
  }

  /** What the filter keeps is a subsequence of the input: kept bytes stay in their original order. */
  lemma {:induction false} StripIacSubsequence(raw: seq<Byte>)
    ensures IsSubsequence(StripIac(raw), raw)
    decreases |raw|
  {
    if raw != [] {
      if raw[0] == IAC {
        StripIacSubsequence(From(raw, 3));
        SubsequenceDropPrefix(StripIac(raw), raw, 3);
      } else {
        StripIacSubsequence(raw[1..]);
        assert StripIac(raw)[0] == raw[0] && StripIac(raw)[1..] == StripIac(raw[1..]);
      }
    }
  }
}
