/** The error text that callbacks collect before they show it: a C string in a fixed buffer. */
module Messages {
  import opened Text

  const ERROR_MESSAGE_SIZE := 1024

  /** As much of a text as the buffer holds beside its terminator. */
  function Kept(text: string): (kept: string)
    ensures kept <= text && |kept| == if |text| < 1024 then |text| else 1023
  {
    if |text| < ERROR_MESSAGE_SIZE then text else text[..ERROR_MESSAGE_SIZE - 1]
  }

  /** The buffer's text after these messages, one append each. */
  function AfterAll(contents: string, messages: seq<string>): string
    decreases |messages|
  {
    if messages == [] then contents else AfterAll(Kept(contents + messages[0]), messages[1..])
  }

  /** Truncation only ever happens at the end: what is shown is the first 1023 characters of everything. */
  lemma {:induction false} AfterAllIsPrefix(contents: string, messages: seq<string>)
    requires |contents| < ERROR_MESSAGE_SIZE
    ensures AfterAll(contents, messages) == Kept(contents + Join(messages))
    decreases |messages|
  {
    if messages == [] {
      assert contents + "" == contents;
    } else {
      var head, tail := contents + messages[0], Join(messages[1..]);
      AfterAllIsPrefix(Kept(head), messages[1..]);
      assert contents + Join(messages) == head + tail;
      if |head| >= ERROR_MESSAGE_SIZE {
        assert (head + tail)[..ERROR_MESSAGE_SIZE - 1] == head[..ERROR_MESSAGE_SIZE - 1];
        assert (Kept(head) + tail)[..ERROR_MESSAGE_SIZE - 1] == Kept(head);
      }
    }
  }

  class MessageBuffer {
    const buffer: array<char>
    ghost var contents: string

    ghost predicate Valid()
      reads this, buffer
    {
      && buffer.Length == ERROR_MESSAGE_SIZE
      && |contents| < ERROR_MESSAGE_SIZE && '\0' !in contents
      && buffer[..|contents|] == contents && buffer[|contents|] == '\0'
    }

    constructor ()
      ensures Valid() && contents == "" && fresh(buffer)
    {
      buffer := new char[ERROR_MESSAGE_SIZE](_ => '\0');
      contents := "";
    }

    method StrLen() returns (n: nat)
      requires Valid()
      ensures n == |contents|
    {
      n := 0;
      while buffer[n] != '\0'
        invariant n <= |contents|
        invariant forall k :: 0 <= k < |contents| ==> buffer[k] == buffer[..|contents|][k] != '\0'
        decreases |contents| - n
      {
        n := n + 1;
      }
    }

    /** strncat with the room that is left. */
    method Append(message: string)
      requires Valid() && '\0' !in message
      modifies this`contents, buffer
      ensures Valid() && contents == Kept(old(contents) + message)
    {
      var n := StrLen();
      var room := ERROR_MESSAGE_SIZE - n - 1;
      var i := 0;
      while i < room && i < |message|
        modifies buffer
        invariant i <= room && i <= |message|
        invariant buffer[..n + i] == contents + message[..i]
      {
        buffer[n + i] := message[i];
        i := i + 1;
        assert message[..i] == message[..i - 1] + [message[i - 1]];
        assert buffer[..n + i] == buffer[..n + i - 1] + [message[i - 1]];
      }
      buffer[n + i] := '\0';
      ghost var all := contents + message;
      if i == |message| {
        assert message[..i] == message && |all| < ERROR_MESSAGE_SIZE;
      } else {
        assert all[..ERROR_MESSAGE_SIZE - 1] == contents + message[..i];
      }
      contents := contents + message[..i];
    }

    method Clear()
      requires Valid()
      modifies this`contents, buffer
      ensures Valid() && contents == ""
    {
      buffer[0] := '\0';
      contents := "";
    }

    /** Clear and then collect: the buffer shows the start of the messages, in order. */
    method Collect(messages: seq<string>)
      requires Valid() && forall k :: 0 <= k < |messages| ==> '\0' !in messages[k]
      modifies this`contents, buffer
      ensures Valid() && contents == Kept(Join(messages))
    {
      Clear();
      AfterAllIsPrefix("", messages);
      assert "" + Join(messages) == Join(messages);
      for k := 0 to |messages|
        invariant Valid() && AfterAll(contents, messages[k..]) == Kept(Join(messages))
      {
        assert messages[k..][0] == messages[k] && messages[k..][1..] == messages[k + 1..];
        Append(messages[k]);
      }
      assert messages[|messages|..] == [];
    }
  }
}
