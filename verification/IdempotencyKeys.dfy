/**
 The textual idempotency keys of `webhook-idempotency.ts`. Header values are
 given as single strings; the empty string is as good as no header.
 */
module IdempotencyKeys {
  import opened Wrappers

  /** Decimal text of a natural number. */
  function NatText(n: nat): string {
    if n < 10 then [Digit(n)] else NatText(n / 10) + [Digit(n % 10)]
  }

  function Digit(d: nat): char
    requires d < 10
  {
    '0' + d as char
  }

  function IntText(n: int): string {
    if n < 0 then "-" + NatText(-n) else NatText(n)
  }

  function KafkaKey(topic: string, partition: int, offset: string): string {
    "kafka:" + topic + ":" + IntText(partition) + ":" + offset
  }

  predicate Truthy(header: Option<string>) {
    header.Some? && header.value != ""
  }

  /** An explicit idempotency header wins over a request id, which wins over the implicit key. */
  function WebhookKey(correlationId: string, path: string, idempotencyHeader: Option<string>, requestId: Option<string>): string {
    if Truthy(idempotencyHeader) then "idem:" + idempotencyHeader.value
    else if Truthy(requestId) then "rid:" + requestId.value
    else if correlationId != "" then "corr:" + correlationId + ":" + path
    else ""
  }

  lemma {:induction false} NatTextDigits(n: nat)
    ensures NatText(n) != [] && (|NatText(n)| == 1 <==> n < 10)
    ensures forall c :: c in NatText(n) ==> '0' <= c <= '9'
  {
    if n >= 10 {
      NatTextDigits(n / 10);
    }
  }

  /** The number a text of decimal digits denotes. */
  function DecimalValue(s: string): int {
    if s == "" then 0 else DecimalValue(s[..|s| - 1]) * 10 + (s[|s| - 1] as int - '0' as int)
  }

  /** The text is the number in decimal, without a leading zero. */
  lemma {:induction false} NatTextIsDecimal(n: nat)
    ensures DecimalValue(NatText(n)) == n
    ensures NatText(n) != "" && (n > 0 ==> NatText(n)[0] != '0')
  {
    var s := NatText(n);
    if n < 10 {
      assert s == [Digit(n)] && s[..0] == "";
    } else {
      NatTextIsDecimal(n / 10);
      assert s[..|s| - 1] == NatText(n / 10);
    }
  }

  lemma {:induction false} NatTextInjective(m: nat, n: nat)
    requires NatText(m) == NatText(n)
    ensures m == n
  {
    NatTextDigits(m);
    NatTextDigits(n);
    var s := NatText(m);
    assert s[|s| - 1] == Digit(m % 10) == Digit(n % 10);
    if m >= 10 {
      assert s[..|s| - 1] == NatText(m / 10) == NatText(n / 10);
      NatTextInjective(m / 10, n / 10);
    }
  }

  lemma SignText(n: int)
    ensures IntText(n) != [] && ':' !in IntText(n)
    ensures n < 0 <==> IntText(n)[0] == '-'
  {
    NatTextDigits(if n < 0 then -n else n);
    if n >= 0 {
      assert NatText(n)[0] in NatText(n);
    }
  }

  lemma IntTextInjective(m: int, n: int)
    requires IntText(m) == IntText(n)
    ensures m == n
  {
    SignText(m);
    SignText(n);
    if m < 0 {
      assert IntText(m)[1..] == NatText(-m) && IntText(n)[1..] == NatText(-n);
      NatTextInjective(-m, -n);
    } else {
      NatTextInjective(m, n);
    }
  }

  lemma NoLaterColon(a: string, b: string)
    requires ':' !in b
    ensures var s := a + ":" + b; s[|a|] == ':' && forall i :: |a| < i < |s| ==> s[i] != ':'
  {
    var s := a + ":" + b;
    forall i | |a| < i < |s| ensures s[i] != ':' {
      assert s[i] == b[i - |a| - 1];
    }
  }

  /** Splitting at the last colon is unambiguous. */
  lemma LastColon(a: string, b: string, c: string, d: string)
    requires a + ":" + b == c + ":" + d
    requires ':' !in b && ':' !in d
    ensures a == c && b == d
  {
    var s := a + ":" + b;
    NoLaterColon(a, b);
    NoLaterColon(c, d);
    assert s[..|a|] == a && (c + ":" + d)[..|c|] == c;
    assert s[|a| + 1..] == b && (c + ":" + d)[|c| + 1..] == d;
  }

  /**
   Which key a webhook call has: its idempotency header's if that is not empty, else
   its request id's, else that of the correlation and path; none without all three.
   */
  lemma WebhookKeyPrecedence(id: string, path: string, header: Option<string>, requestId: Option<string>)
    ensures var key := WebhookKey(id, path, header, requestId);
      && (header.Some? && header.value != "" ==> key == "idem:" + header.value)
      && (header in {None, Some("")} && requestId.Some? && requestId.value != "" ==> key == "rid:" + requestId.value)
      && (header in {None, Some("")} && requestId in {None, Some("")} ==> key == if id == "" then "" else "corr:" + id + ":" + path)
  {
  }

  /** Two calls with a header of their own share a key exactly when it is the same one; the kinds of key never meet. */
  lemma WebhookKeysEqualExactly(a: string, p: string, h: Option<string>, r: Option<string>, b: string, q: string, k: Option<string>, s: Option<string>)
    ensures var x, y := WebhookKey(a, p, h, r), WebhookKey(b, q, k, s);
      && (Truthy(h) && Truthy(k) ==> (x == y <==> h == k))
      && (Truthy(h) && !Truthy(k) ==> x != y)
      && (!Truthy(h) && !Truthy(k) && Truthy(r) && Truthy(s) ==> (x == y <==> r == s))
      && (!Truthy(h) && !Truthy(k) && Truthy(r) && !Truthy(s) ==> x != y)
  {
    var x, y := WebhookKey(a, p, h, r), WebhookKey(b, q, k, s);
    if Truthy(h) {
      assert x[5..] == h.value && x[0] == 'i';
    } else if Truthy(r) {
      assert x[4..] == r.value && x[0] == 'r';
    }
    if Truthy(k) {
      assert y[5..] == k.value && y[0] == 'i';
    } else if Truthy(s) {
      assert y[4..] == s.value && y[0] == 'r';
    } else if b != "" {
      assert y[0] == 'c';
    }
  }

  /** Messages at different positions never share a key, whatever characters the topic holds. */
  lemma KafkaKeyInjective(t1: string, p1: int, o1: string, t2: string, p2: int, o2: string)
    requires ':' !in o1 && ':' !in o2
    requires KafkaKey(t1, p1, o1) == KafkaKey(t2, p2, o2)
    ensures t1 == t2 && p1 == p2 && o1 == o2
  {
    LastColon("kafka:" + t1 + ":" + IntText(p1), o1, "kafka:" + t2 + ":" + IntText(p2), o2);
    SignText(p1);
    SignText(p2);
    LastColon("kafka:" + t1, IntText(p1), "kafka:" + t2, IntText(p2));
    assert ("kafka:" + t1)[6..] == t1 && ("kafka:" + t2)[6..] == t2;
    IntTextInjective(p1, p2);
  }

  datatype Position = Position(topic: string, partition: int, offset: string)

  function KeyAt(a: Position): string {
    KafkaKey(a.topic, a.partition, a.offset)
  }

  /** The front of `a`'s offset, read as topic and partition with what stands before it, gives `b`. */
  ghost predicate Regrouped(a: Position, b: Position) {
    exists y: string ::
      && b.topic + ":" == a.topic + ":" + IntText(a.partition) + ":" + y
      && a.offset == y + IntText(b.partition) + ":" + b.offset
  }

  function Front(a: Position): string {
    "kafka:" + a.topic + ":" + IntText(a.partition)
  }

  /** Two positions share a key exactly when they are one, or colons in an offset let one be read as the other. */
  lemma KafkaKeysEqualExactly(a: Position, b: Position)
    ensures KeyAt(a) == KeyAt(b) <==> a == b || Regrouped(a, b) || Regrouped(b, a)
  {
    if Regrouped(a, b) {
      RegroupedShare(a, b);
    }
    if Regrouped(b, a) {
      RegroupedShare(b, a);
    }
    if KeyAt(a) == KeyAt(b) {
      if |a.offset| == |b.offset| {
        SameLength(a, b);
      } else if |a.offset| > |b.offset| {
        LongerOffset(a, b);
      } else {
        LongerOffset(b, a);
      }
    }
  }

  lemma KeyTail(t: string, i: string, y: string, tail: string)
    ensures "kafka:" + t + ":" + i + ":" + (y + tail) == "kafka:" + (t + ":" + i + ":" + y) + tail
  {
  }

  lemma KeyHead(t: string, i: string, o: string)
    ensures "kafka:" + t + ":" + i + ":" + o == "kafka:" + (t + ":") + (i + ":" + o)
  {
  }

  lemma RegroupedShare(a: Position, b: Position)
    requires Regrouped(a, b)
    ensures KeyAt(a) == KeyAt(b)
  {
    var y :| b.topic + ":" == a.topic + ":" + IntText(a.partition) + ":" + y
      && a.offset == y + IntText(b.partition) + ":" + b.offset;
    RegroupedText(a.topic, IntText(a.partition), y, b.topic, IntText(b.partition), b.offset);
  }

  lemma RegroupedText(t: string, i: string, y: string, u: string, j: string, o: string)
    requires u + ":" == t + ":" + i + ":" + y
    ensures "kafka:" + t + ":" + i + ":" + (y + j + ":" + o) == "kafka:" + u + ":" + j + ":" + o
  {
    var tail := j + ":" + o;
    SplitTail(y, j, o);
    KeyTail(t, i, y, tail);
    KeyHead(u, j, o);
  }

  lemma SplitTail(y: string, j: string, o: string)
    ensures y + j + ":" + o == y + (j + ":" + o)
  {
  }

  lemma SameLength(a: Position, b: Position)
    requires KeyAt(a) == KeyAt(b) && |a.offset| == |b.offset|
    ensures a == b
  {
    hide IntText;
    var k, f, g := KeyAt(a), Front(a), Front(b);
    assert k == f + ":" + a.offset == g + ":" + b.offset;
    assert k[|f| + 1..] == a.offset && k[|g| + 1..] == b.offset;
    assert k[..|f|] == f && k[..|g|] == g;
    SameFront(a, b);
  }

  lemma SameFront(a: Position, b: Position)
    requires Front(a) == Front(b)
    ensures a.topic == b.topic && a.partition == b.partition
  {
    SignText(a.partition);
    SignText(b.partition);
    hide IntText;
    LastColon("kafka:" + a.topic, IntText(a.partition), "kafka:" + b.topic, IntText(b.partition));
    assert ("kafka:" + a.topic)[6..] == a.topic && ("kafka:" + b.topic)[6..] == b.topic;
    IntTextInjective(a.partition, b.partition);
  }

  /** The colon-free end of a text. */
  function LastField(s: string): (n: nat)
    ensures n <= |s|
    ensures ':' !in s[n..]
    ensures n > 0 ==> s[n - 1] == ':'
  {
    if s == "" || s[|s| - 1] == ':' then |s|
    else
      var n := LastField(s[..|s| - 1]);
      assert s[n..] == s[..|s| - 1][n..] + [s[|s| - 1]];
      n
  }

  lemma LongerOffset(a: Position, b: Position)
    requires KeyAt(a) == KeyAt(b) && |a.offset| > |b.offset|
    ensures Regrouped(a, b)
  {
    var z := Overlap(Front(a), a.offset, Front(b), b.offset);
    var n := LastField(z);
    var y, w := z[..n], z[n..];
    SignText(b.partition);
    hide IntText, LastField;
    assert z == y + w;
    BeforeLastField(a, b, y, w);
    assert a.offset == y + IntText(b.partition) + ":" + b.offset;
  }

  /** Where one front is longer, the other text's tail starts with what it has more. */
  lemma Overlap(f: string, x: string, g: string, v: string) returns (z: string)
    requires f + ":" + x == g + ":" + v && |x| > |v|
    ensures g == f + ":" + z && x == z + ":" + v
  {
    var k := f + ":" + x;
    z := g[|f| + 1..];
    assert k[..|g|] == g && k[|g| + 1..] == v && k[|f| + 1..] == x && k[..|f|] == f;
    assert k[|g|] == ':' && k[|f|] == ':';
    assert g[..|f|] == f && g[|f|] == ':';
  }

  lemma BeforeLastField(a: Position, b: Position, y: string, w: string)
    requires Front(b) == Front(a) + ":" + (y + w) && ':' !in w && (y != "" ==> y[|y| - 1] == ':')
    ensures b.topic + ":" == a.topic + ":" + IntText(a.partition) + ":" + y
    ensures w == IntText(b.partition)
  {
    SignText(b.partition);
    hide IntText;
    var head := Front(a) + ":" + y;
    var front := head[..|head| - 1];
    assert head[|head| - 1] == ':' && head == front + ":";
    assert Front(b) == head + w == front + ":" + w;
    LastColon(front, w, "kafka:" + b.topic, IntText(b.partition));
    var rest := a.topic + ":" + IntText(a.partition) + ":" + y;
    assert head == "kafka:" + rest;
    assert head == "kafka:" + b.topic + ":";
    assert head[6..] == rest && ("kafka:" + b.topic + ":")[6..] == b.topic + ":";
  }

  /** An instance with a colon in an offset; decimal offsets hold none. */
  lemma ColonOffsetsCollide()
    ensures KafkaKey("t:1", 2, "3") == KafkaKey("t", 1, "2:3")
  {
    assert NatText(1) == "1" && NatText(2) == "2";
  }

  lemma KafkaNeverCollidesWithWebhook(t: string, p: int, o: string, id: string, path: string, idem: Option<string>, rid: Option<string>)
    ensures KafkaKey(t, p, o) != WebhookKey(id, path, idem, rid)
  {
    assert KafkaKey(t, p, o)[0] == 'k';
  }
}
