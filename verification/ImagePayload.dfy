/** The last gate on a model request: images are replaced oldest first until the payload fits. */
module ImagePayload {

  datatype Part = Text(text: string) | Image(url: string)

  datatype Message = Plain(text: string) | Parts(parts: seq<Part>)

  const OMISSION := Text(
    "[Image not sent: the combined model request exceeds the image payload budget. Use bash to make smaller image copies or crop the relevant details, then read those new paths. Do not claim to have seen this image.]")

  /** The encoded size of a request with these messages. */
  type Sizer = seq<Message> -> nat

  function ClearedPart(part: Part): Part {
    if part.Image? then OMISSION else part
  }

  function ClearedParts(parts: seq<Part>): seq<Part> {
    seq(|parts|, i requires 0 <= i < |parts| => ClearedPart(parts[i]))
  }

  function PartsOf(message: Message): seq<Part> {
    match message case Plain(_) => [] case Parts(parts) => parts
  }

  /** One message with its first `j` parts cleared. */
  function ClearedTo(message: Message, j: nat): Message
    requires j <= |PartsOf(message)|
  {
    match message case Plain(_) => message case Parts(parts) => Parts(ClearedParts(parts[..j]) + parts[j..])
  }

  function ClearedMessage(message: Message): Message {
    ClearedTo(message, |PartsOf(message)|)
  }

  /** Everything before part `j` of message `i` cleared. */
  function Cleared(messages: seq<Message>, i: nat, j: nat): seq<Message>
    requires i <= |messages| && (i < |messages| ==> j <= |PartsOf(messages[i])|)
  {
    seq(|messages|, k requires 0 <= k < |messages| =>
      if k < i then ClearedMessage(messages[k]) else if k == i then ClearedTo(messages[k], j) else messages[k])
  }

  ghost predicate IsPosition(messages: seq<Message>, i: nat, j: nat) {
    i < |messages| && j <= |PartsOf(messages[i])|
  }

  predicate Before(i: nat, j: nat, p: nat, q: nat) {
    i < p || (i == p && j < q)
  }

  lemma ClearedStart(messages: seq<Message>)
    ensures messages != [] ==> Cleared(messages, 0, 0) == messages
  {
    if messages != [] {
      assert ClearedTo(messages[0], 0) == messages[0];
    }
  }

  lemma ClearedNext(messages: seq<Message>, i: nat)
    requires i < |messages|
    ensures Cleared(messages, i, |PartsOf(messages[i])|)
            == if i + 1 < |messages| then Cleared(messages, i + 1, 0) else Cleared(messages, |messages|, 0)
  {
    if i + 1 < |messages| {
      assert ClearedTo(messages[i + 1], 0) == messages[i + 1];
    }
  }

  lemma ClearedAdvance(messages: seq<Message>, i: nat, j: nat)
    requires i < |messages| && messages[i].Parts? && j < |messages[i].parts|
    ensures Cleared(messages, i, j)[i].Parts? && j < |Cleared(messages, i, j)[i].parts|
    ensures var part := Cleared(messages, i, j)[i].parts[j];
            && part == messages[i].parts[j]
            && Cleared(messages, i, j + 1)
               == Cleared(messages, i, j)[i := Parts(Cleared(messages, i, j)[i].parts[j := ClearedPart(part)])]
            && (part.Text? ==> Cleared(messages, i, j + 1) == Cleared(messages, i, j))
  {
    var here := Cleared(messages, i, j);
    assert here[i] == ClearedTo(messages[i], j);
    var next := here[i := Parts(here[i].parts[j := ClearedPart(here[i].parts[j])])];
    forall k | 0 <= k < |messages| ensures next[k] == Cleared(messages, i, j + 1)[k] {
      if k == i { assert next[k] == ClearedTo(messages[k], j + 1); }
    }
    if messages[i].parts[j].Text? {
      assert here[i].parts[j := here[i].parts[j]] == here[i].parts;
      assert next == here;
    }
  }

  /** Clearing up to any position before `(i, j)` does not fit. */
  ghost predicate NoneFits(messages: seq<Message>, size: Sizer, maxBytes: nat, i: nat, j: nat) {
    forall p: nat, q: nat | IsPosition(messages, p, q) && Before(p, q, i, j) :: size(Cleared(messages, p, q)) > maxBytes
  }

  lemma NoneFitsNext(messages: seq<Message>, size: Sizer, maxBytes: nat, i: nat, j: nat)
    requires NoneFits(messages, size, maxBytes, i, j) && IsPosition(messages, i, j) && size(Cleared(messages, i, j)) > maxBytes
    ensures NoneFits(messages, size, maxBytes, i, j + 1)
    ensures j == |PartsOf(messages[i])| ==> NoneFits(messages, size, maxBytes, i + 1, 0)
  {}

  /** One message: clears its images one by one until the payload fits. */
  method ClearImages(messages: seq<Message>, size: Sizer, maxBytes: nat, m: nat, before: seq<Message>)
    returns (bounded: seq<Message>, fits: bool, ghost j: nat)
    requires m < |messages| && before == Cleared(messages, m, 0) && size(before) > maxBytes
    requires NoneFits(messages, size, maxBytes, m, 0)
    ensures j <= |PartsOf(messages[m])| && bounded == Cleared(messages, m, j) && NoneFits(messages, size, maxBytes, m, j)
    ensures fits <==> size(bounded) <= maxBytes
    ensures !fits ==> j == |PartsOf(messages[m])|
  {
    bounded := before;
    fits := false;
    j := 0;
    if messages[m].Plain? { return; }
    var index := 0;
    while index < |messages[m].parts|
      invariant index <= |messages[m].parts| && bounded == Cleared(messages, m, index) && size(bounded) > maxBytes
      invariant NoneFits(messages, size, maxBytes, m, index)
    {
      ClearedAdvance(messages, m, index);
      NoneFitsNext(messages, size, maxBytes, m, index);
      var part := bounded[m].parts[index];
      if part.Image? {
        bounded := bounded[m := Parts(bounded[m].parts[index := OMISSION])];
        if size(bounded) <= maxBytes {
          fits := true;
          j := index + 1;
          return;
        }
      }
      index := index + 1;
    }
    j := index;
  }

  /**
   * The result is the request with the oldest images cleared up to some
   * position, and clearing up to any earlier position would not fit; when
   * nothing fits, every image is cleared.
   */
  method LimitModelImagePayload(messages: seq<Message>, size: Sizer, maxBytes: nat)
    returns (bounded: seq<Message>, ghost i: nat, ghost j: nat)
    ensures size(messages) <= maxBytes ==> bounded == messages
    ensures size(messages) > maxBytes ==>
              && i <= |messages| && (i < |messages| ==> j <= |PartsOf(messages[i])|)
              && bounded == Cleared(messages, i, j)
              && (size(bounded) <= maxBytes || i == |messages|)
              && NoneFits(messages, size, maxBytes, i, j)
  {
    bounded := messages;
    i, j := 0, 0;
    if size(messages) <= maxBytes { return; }
    ClearedStart(messages);
    var m := 0;
    while m < |messages|
      invariant m <= |messages| && bounded == Cleared(messages, m, 0) && size(bounded) > maxBytes
      invariant NoneFits(messages, size, maxBytes, m, 0)
    {
      var fits;
      bounded, fits, j := ClearImages(messages, size, maxBytes, m, bounded);
      if fits {
        i := m;
        return;
      }
      NoneFitsNext(messages, size, maxBytes, m, j);
      ClearedNext(messages, m);
      m := m + 1;
    }
    i, j := |messages|, 0;
  }

  /** Clearing up to a position replaces exactly the images before it by the note, and touches nothing else. */
  lemma ClearedExactly(messages: seq<Message>, i: nat, j: nat, k: nat)
    requires i <= |messages| && (i < |messages| ==> j <= |PartsOf(messages[i])|) && k < |messages|
    ensures |Cleared(messages, i, j)| == |messages| && OMISSION.Text?
    ensures var before, after := messages[k], Cleared(messages, i, j)[k];
            if before.Plain? then after == before
            else
              && after.Parts? && |after.parts| == |before.parts|
              && forall q | 0 <= q < |before.parts| ::
                   after.parts[q] == if before.parts[q].Image? && (k < i || (k == i && q < j)) then OMISSION else before.parts[q]
  {}
}
