/** The text the overlay draws: Python's decimal rendering of a count, the
    `In:<total>+<pending>` / `Out:<total>+<pending>` tallies
    (flow_count.py:284-285, crowd_count.py:197-198) and the per-gate
    `In: <in>, Out: <out>` caption (flow_count.py:272, crowd_count.py:181).
    Each format comes with a parser that reads the numbers back. */
module Labels {
  import opened Results

  predicate IsDigit(c: char) {
    '0' <= c <= '9'
  }

  predicate AllDigits(s: string) {
    forall i :: 0 <= i < |s| ==> IsDigit(s[i])
  }

  function DigitChar(d: nat): (c: char)
    requires d < 10
    ensures IsDigit(c)
  {
    (('0' as int) + d) as char
  }

  function DigitValue(c: char): (d: nat)
    requires IsDigit(c)
    ensures d < 10
  {
    (c as int) - ('0' as int)
  }

  /** `str(n)` for a non-negative int: most significant digit first, no
      leading zero. */
  function NatToString(n: nat): (s: string)
    ensures |s| >= 1 && AllDigits(s)
    ensures |s| > 1 ==> s[0] != '0'
    decreases n
  {
    if n < 10 then [DigitChar(n)] else NatToString(n / 10) + [DigitChar(n % 10)]
  }

  /** The number a digit string denotes, least significant digit last. */
  function ValueOf(s: string): nat
    requires AllDigits(s)
    decreases |s|
  {
    if |s| == 0 then 0 else ValueOf(s[..|s| - 1]) * 10 + DigitValue(s[|s| - 1])
  }

  /** `int(s)` restricted to what `str` of a count produces: a non-empty
      run of decimal digits. */
  function ParseNat(s: string): (r: Option<nat>)
    ensures r.Some? <==> |s| > 0 && AllDigits(s)
  {
    if |s| > 0 && AllDigits(s) then Some(ValueOf(s)) else None
  }

  /** Reading a rendered count gives the count back. */
  lemma {:induction false} ParseNatToString(n: nat)
    ensures ParseNat(NatToString(n)) == Some(n)
    decreases n
  {
    var s := NatToString(n);
    if n >= 10 {
      var front := NatToString(n / 10);
      ParseNatToString(n / 10);
      assert s[..|s| - 1] == front;
      assert DigitValue(DigitChar(n % 10)) == n % 10;
      assert ValueOf(s) == ValueOf(front) * 10 + n % 10;
    } else {
      assert s[..|s| - 1] == [];
      assert DigitValue(DigitChar(n)) == n;
      assert ValueOf(s) == n;
    }
  }

  /** Two different counts never render the same. */
  lemma NatToStringInjective(a: nat, b: nat)
    ensures NatToString(a) == NatToString(b) <==> a == b
  {
    ParseNatToString(a);
    ParseNatToString(b);
  }

  /** The first position of `c` in `s`, if any. */
  function Find(s: string, c: char): (r: Option<nat>)
    ensures r.Some? ==> r.value < |s| && s[r.value] == c && c !in s[..r.value]
    ensures r.None? <==> c !in s
    decreases |s|
  {
    if |s| == 0 then None
    else if s[0] == c then Some(0)
    else match Find(s[1..], c)
      case None => None
      case Some(i) =>
        assert s[..i + 1] == [s[0]] + s[1..][..i];
        Some(i + 1)
  }

  /** A position moved `n` places to the right. */
  function Shift(p: Option<nat>, n: nat): Option<nat> {
    match p
    case None => None
    case Some(i) => Some(i + n)
  }

  /** When `c` does not occur in `a`, the first `c` of `a + b` is the first
      of `b`, shifted past `a`. */
  lemma {:induction false} FindPast(a: string, b: string, c: char)
    requires c !in a
    ensures Find(a + b, c) == Shift(Find(b, c), |a|)
    decreases |a|
  {
    if |a| == 0 {
      assert a + b == b;
    } else {
      var s := a + b;
      assert s[0] == a[0] != c;
      assert s[1..] == a[1..] + b;
      assert Find(s, c) == Shift(Find(s[1..], c), 1);
      FindPast(a[1..], b, c);
    }
  }

  lemma DigitsHaveNo(s: string, c: char)
    requires AllDigits(s) && !IsDigit(c)
    ensures c !in s
  {
  }

  /** The pending suffix: `+<p>` when something is pending, nothing
      otherwise. */
  function PendingSuffix(pending: nat): (r: string)
    ensures pending == 0 <==> r == []
    ensures pending > 0 ==> r[0] == '+'
  {
    if pending > 0 then "+" + NatToString(pending) else ""
  }

  /** `f'{prefix}:{total}' + (f'+{pending}' if pending > 0 else '')`. */
  function CountLabel(prefix: string, total: nat, pending: nat): string {
    prefix + ":" + NatToString(total) + PendingSuffix(pending)
  }

  /** The rest of `s` after `head`, when `s` starts with `head`. */
  function StripPrefix(head: string, s: string): (r: Option<string>)
    ensures r.Some? ==> s == head + r.value
  {
    if |s| >= |head| && s[..|head|] == head then Some(s[|head|..]) else None
  }

  lemma StripPrefixAppend(head: string, rest: string)
    ensures StripPrefix(head, head + rest) == Some(rest)
  {
    assert (head + rest)[..|head|] == head;
    assert (head + rest)[|head|..] == rest;
  }

  /** Reads the numbers of a tally: a total, and optionally a plus sign
      followed by a positive pending count. */
  function ParseTally(body: string): Option<(nat, nat)> {
    match Find(body, '+')
    case None =>
      (match ParseNat(body)
       case None => None
       case Some(t) => Some((t, 0)))
    case Some(i) =>
      (match (ParseNat(body[..i]), ParseNat(body[i + 1..]))
       case (Some(t), Some(p)) => if p > 0 then Some((t, p)) else None
       case _ => None)
  }

  lemma ParseTallyRoundTrip(total: nat, pending: nat)
    ensures ParseTally(NatToString(total) + PendingSuffix(pending)) == Some((total, pending))
  {
    if pending > 0 {
      ParseTallyWithPending(total, pending);
    } else {
      assert NatToString(total) + PendingSuffix(pending) == NatToString(total);
      ParseTallyAlone(total);
    }
  }

  lemma ParseTallyAlone(total: nat)
    ensures ParseTally(NatToString(total)) == Some((total, 0))
  {
    DigitsHaveNo(NatToString(total), '+');
    ParseNatToString(total);
  }

  lemma ParseTallyWithPending(total: nat, pending: nat)
    requires pending > 0
    ensures ParseTally(NatToString(total) + ("+" + NatToString(pending))) == Some((total, pending))
  {
    ParseNatToString(total);
    ParseNatToString(pending);
    ParseTallyParts(NatToString(total), NatToString(pending), total, pending);
  }

  /** Two readable counts joined by a plus sign read back as the pair. */
  lemma ParseTallyParts(a: string, b: string, total: nat, pending: nat)
    requires ParseNat(a) == Some(total) && ParseNat(b) == Some(pending) && pending > 0
    ensures ParseTally(a + ("+" + b)) == Some((total, pending))
  {
    assert "+" == ['+'];
    DigitsHaveNo(a, '+');
    FindSeparator(a, '+', b);
    ParseTallyAt(a + ("+" + b), |a|, total, pending);
  }

  /** How `ParseTally` reads a body whose first plus sign is at `i`. */
  lemma ParseTallyAt(body: string, i: nat, total: nat, pending: nat)
    requires Find(body, '+') == Some(i)
    requires ParseNat(body[..i]) == Some(total) && ParseNat(body[i + 1..]) == Some(pending)
    requires pending > 0
    ensures ParseTally(body) == Some((total, pending))
  {
  }

  /** In `a + [c] + b` with no `c` in `a`, the first `c` sits right after
      `a`, and cutting there gives `a` and `b` back. */
  lemma FindSeparator(a: string, c: char, b: string)
    requires c !in a
    ensures Find(a + ([c] + b), c) == Some(|a|)
    ensures (a + ([c] + b))[..|a|] == a
    ensures (a + ([c] + b))[|a| + 1..] == b
  {
    FindPast(a, [c] + b, c);
    assert Find([c] + b, c) == Some(0);
  }

  /** Reads a tally back: the prefix and a colon, then its numbers. */
  function ParseCountLabel(prefix: string, s: string): Option<(nat, nat)> {
    match StripPrefix(prefix + ":", s)
    case None => None
    case Some(body) => ParseTally(body)
  }

  /** The tally reads back as the total and pending counts it was built
      from, so the overlay never shows two different states the same way. */
  lemma ParseCountLabelRoundTrip(prefix: string, total: nat, pending: nat)
    ensures ParseCountLabel(prefix, CountLabel(prefix, total, pending)) == Some((total, pending))
  {
    var body := NatToString(total) + PendingSuffix(pending);
    assert CountLabel(prefix, total, pending) == (prefix + ":") + body;
    StripPrefixAppend(prefix + ":", body);
    ParseTallyRoundTrip(total, pending);
  }

  /** Distinct (total, pending) pairs give distinct tallies. */
  lemma CountLabelInjective(prefix: string, t1: nat, p1: nat, t2: nat, p2: nat)
    ensures CountLabel(prefix, t1, p1) == CountLabel(prefix, t2, p2) <==> t1 == t2 && p1 == p2
  {
    ParseCountLabelRoundTrip(prefix, t1, p1);
    ParseCountLabelRoundTrip(prefix, t2, p2);
  }

  /** The caption drawn beside a gate: `f'In: {in}, Out: {out}'`. */
  function GateCaption(inCount: nat, outCount: nat): string {
    "In: " + NatToString(inCount) + ", Out: " + NatToString(outCount)
  }

  /** Reads the numbers of a caption: digits up to the first comma, then
      `, Out: ` and digits. */
  function ParseCaptionBody(body: string): Option<(nat, nat)> {
    match Find(body, ',')
    case None => None
    case Some(i) =>
      (match (ParseNat(body[..i]), StripPrefix(", Out: ", body[i..]))
       case (Some(a), Some(rest)) =>
         (match ParseNat(rest)
          case None => None
          case Some(b) => Some((a, b)))
       case _ => None)
  }

  lemma ParseCaptionBodyRoundTrip(inCount: nat, outCount: nat)
    ensures ParseCaptionBody(NatToString(inCount) + (", Out: " + NatToString(outCount)))
            == Some((inCount, outCount))
  {
    var a := NatToString(inCount);
    var tail := ", Out: " + NatToString(outCount);
    var body := a + tail;
    DigitsHaveNo(a, ',');
    FindPast(a, tail, ',');
    assert Find(tail, ',') == Some(0);
    assert body[..|a|] == a;
    assert body[|a|..] == tail;
    StripPrefixAppend(", Out: ", NatToString(outCount));
    ParseNatToString(inCount);
    ParseNatToString(outCount);
  }

  /** Reads a caption back: `In: `, then its numbers. */
  function ParseGateCaption(s: string): Option<(nat, nat)> {
    match StripPrefix("In: ", s)
    case None => None
    case Some(body) => ParseCaptionBody(body)
  }

  /** The caption reads back as the gate's two counts. */
  lemma ParseGateCaptionRoundTrip(inCount: nat, outCount: nat)
    ensures ParseGateCaption(GateCaption(inCount, outCount)) == Some((inCount, outCount))
  {
    var body := NatToString(inCount) + (", Out: " + NatToString(outCount));
    assert GateCaption(inCount, outCount) == "In: " + body;
    StripPrefixAppend("In: ", body);
    ParseCaptionBodyRoundTrip(inCount, outCount);
  }
}
