/** A chat message and the one-line text it is shown as. */
module ChatMessage {

  /** A message as the chat room stores and relays it. */
  datatype Message = Message(userName: string, body: string, timestamp: string) {

    /** "<user> at <timestamp> says <body>": the user name first, then the
        ten characters of the two fixed words with their spaces around the
        timestamp, and the body last. */
    function String(): (s: string)
      ensures |s| == |userName| + |timestamp| + |body| + 10
      ensures s[..|userName|] == userName
      ensures s[|userName|..|userName| + 4] == " at "
      ensures s[|userName| + 4..|userName| + 4 + |timestamp|] == timestamp
      ensures s[|userName| + 4 + |timestamp|..|s| - |body|] == " says "
      ensures s[|s| - |body|..] == body
    {
      userName + " at " + timestamp + " says " + body
    }
  }

  /** Given the lengths of the user name and the timestamp, the text of a
      message determines the message. */
  lemma StringDeterminesMessage(m1: Message, m2: Message)
    requires m1.String() == m2.String()
    requires |m1.userName| == |m2.userName| && |m1.timestamp| == |m2.timestamp|
    ensures m1 == m2
  {
    var s := m1.String();
    assert m1.userName == s[..|m1.userName|] == m2.userName;
    assert m1.timestamp == m2.timestamp;
    assert m1.body == s[|s| - |m1.body|..] == m2.body;
  }

  /** Without those lengths it does not: a timestamp or a body that itself
      contains " says " makes two different messages read the same. */
  lemma StringIsAmbiguous()
    ensures var m1 := Message("ann", "hi", "noon says yo");
            var m2 := Message("ann", "yo says hi", "noon");
            m1 != m2 && m1.String() == m2.String()
  {
  }
}
