/**
 What a delivery's id says it stands for (platform/console/transcript.go).
 */
module OpIds {
  import opened ByteStrings

  const INPUT: string := "input:"
  const SEND: string := "send"

  /** The input in "input:<conversation>:<input>:<channel>", empty for any other id. The input
      may hold colons itself; the first and the last after the prefix bound it. */
  function InputIDOf(opID: string): string {
    if !(INPUT <= opID) then ""
    else
      var rest := opID[|INPUT|..];
      var first, last := IndexByte(rest, ':', 0), LastIndex(rest, ":", |rest|);
      if first < 0 || last <= first then "" else rest[first + 1..last]
  }

  /** The run in "send:<conversation>:<channel>:<run>": all that follows the third colon. */
  function RunIDOf(opID: string): string {
    var a := IndexByte(opID, ':', 0);
    if a < 0 then ""
    else
      var b := IndexByte(opID, ':', a + 1);
      if b < 0 then ""
      else
        var c := IndexByte(opID, ':', b + 1);
        if c < 0 || opID[..a] != SEND then "" else opID[c + 1..]
  }

  predicate NoColon(s: string) {
    ':' !in s
  }

  lemma ColonAt(s: string, i: nat, j: nat)
    requires i <= j < |s| && s[j] == ':' && forall q :: i <= q < j ==> s[q] != ':'
    ensures IndexByte(s, ':', i) == j
  {
    IndexByteIsFirst(s, ':', i);
  }

  lemma LastColonAt(s: string, j: nat)
    requires j < |s| && s[j] == ':' && forall q :: j < q < |s| ==> s[q] != ':'
    ensures LastIndex(s, ":", |s|) == j
  {
    LastIndexIsLast(s, ":", |s|);
    assert At(s, ":", j);
    var i := LastIndex(s, ":", |s|);
    if i >= 0 {
      AtByte(s, ":", i, 0);
    }
  }

  /** An input's delivery names the input, whatever it contains. */
  lemma InputRoundTrip(conversation: string, input: string, channel: string)
    requires NoColon(conversation) && NoColon(channel)
    ensures InputIDOf(INPUT + conversation + ":" + input + ":" + channel) == input
  {
    var rest := conversation + ":" + input + ":" + channel;
    assert INPUT + conversation + ":" + input + ":" + channel == INPUT + rest;
    assert (INPUT + rest)[|INPUT|..] == rest;
    Bounded(conversation, input, channel, rest);
  }

  lemma Bounded(conversation: string, input: string, channel: string, rest: string)
    requires NoColon(conversation) && NoColon(channel) && rest == conversation + ":" + input + ":" + channel
    ensures IndexByte(rest, ':', 0) == |conversation| && LastIndex(rest, ":", |rest|) == |conversation| + 1 + |input|
    ensures rest[|conversation| + 1..|conversation| + 1 + |input|] == input
  {
    var last := |conversation| + 1 + |input|;
    forall q | 0 <= q < |conversation|
      ensures rest[q] != ':'
    {
      assert rest[q] == conversation[q] && conversation[q] in conversation;
    }
    forall q | last < q < |rest|
      ensures rest[q] != ':'
    {
      assert rest[q] == channel[q - last - 1] && channel[q - last - 1] in channel;
    }
    ColonAt(rest, 0, |conversation|);
    LastColonAt(rest, last);
  }

  /** A reply's delivery names its run. */
  lemma RunRoundTrip(conversation: string, channel: string, run: string)
    requires NoColon(conversation) && NoColon(channel)
    ensures RunIDOf(SEND + ":" + conversation + ":" + channel + ":" + run) == run
  {
    var opID := SEND + ":" + conversation + ":" + channel + ":" + run;
    var a, b := |SEND|, |SEND| + 1 + |conversation|;
    var c := b + 1 + |channel|;
    forall q | a < q < b
      ensures opID[q] != ':'
    {
      assert opID[q] == conversation[q - a - 1] && conversation[q - a - 1] in conversation;
    }
    forall q | b < q < c
      ensures opID[q] != ':'
    {
      assert opID[q] == channel[q - b - 1] && channel[q - b - 1] in channel;
    }
    ColonAt(opID, 0, a);
    ColonAt(opID, a + 1, b);
    ColonAt(opID, b + 1, c);
    assert opID[..a] == SEND && opID[c + 1..] == run;
  }

  /** No id stands for both an input and a run. */
  lemma OneOrTheOther(opID: string)
    ensures InputIDOf(opID) == "" || RunIDOf(opID) == ""
  {
    if INPUT <= opID {
      assert forall q :: 0 <= q < |INPUT| ==> opID[q] == INPUT[q];
      ColonAt(opID, 0, 5);
    }
  }
}
