/**
 * The message list that the chat view derives from a transcript: the
 * transcript is cut at '\n', blank lines are dropped, a line that starts
 * with "You:" becomes a user message, one that starts with "Avatar:" an
 * avatar message, and every other line is discarded.
 */
module ChatMessages {
  import opened Results
  import opened Text

  datatype Sender = User | Avatar

  datatype Message = Message(sender: Sender, text: string)

  const UserPrefix: string := "You:"
  const AvatarPrefix: string := "Avatar:"

  /** The `map` step: a line becomes a message, or nothing (`null`). */
  function ClassifyLine(line: string): Option<Message> {
    if UserPrefix <= line then Some(Message(User, JsTrim(ReplaceFirst(line, UserPrefix, ""))))
    else if AvatarPrefix <= line then Some(Message(Avatar, JsTrim(ReplaceFirst(line, AvatarPrefix, ""))))
    else None
  }

  /** `filter(line => line.trim())` followed by the `map` step: blank lines give nothing. */
  function LineMessage(line: string): Option<Message> {
    if JsTrim(line) == [] then None else ClassifyLine(line)
  }

  /** Applies `f` to each element in order and keeps the present results (`map` then `filter(Boolean)`). */
  function FilterMap<A, B>(xs: seq<A>, f: A -> Option<B>): seq<B> {
    if xs == [] then []
    else
      var rest := FilterMap(xs[1..], f);
      match f(xs[0])
      case Some(y) => [y] + rest
      case None => rest
  }

  /** The messages shown for a transcript. */
  function Messages(transcript: string): seq<Message> {
    FilterMap(Split(transcript, "\n"), LineMessage)
  }

  /** Elements are handled one by one: the results of two runs come out one after the other, in order. */
  lemma {:induction false} FilterMapAppend<A, B>(a: seq<A>, b: seq<A>, f: A -> Option<B>)
    ensures FilterMap(a + b, f) == FilterMap(a, f) + FilterMap(b, f)
    decreases |a|
  {
    if a != [] {
      FilterMapAppend(a[1..], b, f);
      assert (a + b)[1..] == a[1..] + b;
    } else {
      assert a + b == b;
    }
  }

  /** One element gives the result of `f` on it, if any. */
  lemma FilterMapOne<A, B>(x: A, f: A -> Option<B>)
    ensures FilterMap([x], f) == (if f(x).Some? then [f(x).value] else [])
  {
    assert [x][1..] == [];
  }

  /** Every result is the image of an element, so there are never more results than elements. */
  lemma {:induction false} FilterMapBound<A, B>(xs: seq<A>, f: A -> Option<B>)
    ensures |FilterMap(xs, f)| <= |xs|
    ensures forall y :: y in FilterMap(xs, f) ==> exists x :: x in xs && f(x) == Some(y)
    decreases |xs|
  {
    if xs != [] {
      FilterMapBound(xs[1..], f);
      forall y | y in FilterMap(xs, f) ensures exists x :: x in xs && f(x) == Some(y) {
        if y in FilterMap(xs[1..], f) {
          var x :| x in xs[1..] && f(x) == Some(y);
          assert x in xs;
        } else {
          assert f(xs[0]) == Some(y);
        }
      }
    }
  }

  /** The message count is bounded by the number of '\n' characters plus one. */
  lemma MessagesBound(transcript: string)
    ensures |Messages(transcript)| <= CountChar(transcript, '\n') + 1
  {
    FilterMapBound(Split(transcript, "\n"), LineMessage);
    SplitCharCount(transcript, '\n');
  }

  /** A blank or whitespace-only line yields no message. */
  lemma BlankLineDropped(line: string)
    requires forall i :: 0 <= i < |line| ==> IsJsWhitespace(line[i])
    ensures LineMessage(line) == None
    ensures ClassifyLine(line) == None
  {
    assert JsTrim(line) == [];
    if line != [] {
      assert IsJsWhitespace(line[0]);
    }
  }

  /** A line starting with "You:" is a user message holding the rest of the line, trimmed. */
  lemma UserLine(line: string)
    requires UserPrefix <= line
    ensures LineMessage(line) == Some(Message(User, JsTrim(line[|UserPrefix|..])))
  {
    assert JsTrim(line) != [] by {
      assert line[0] == 'Y';
    }
    var rest := ReplaceFirst(line, UserPrefix, "");
    assert rest == line[|UserPrefix|..] by {
      ReplaceFirstAtStart(line, UserPrefix, "");
    }
    assert ClassifyLine(line) == Some(Message(User, JsTrim(rest)));
  }

  /** A line starting with "Avatar:" is an avatar message holding the rest of the line, trimmed. */
  lemma AvatarLine(line: string)
    requires AvatarPrefix <= line
    ensures LineMessage(line) == Some(Message(Avatar, JsTrim(line[|AvatarPrefix|..])))
  {
    assert JsTrim(line) != [] && !(UserPrefix <= line) by {
      assert line[0] == 'A';
    }
    var rest := ReplaceFirst(line, AvatarPrefix, "");
    assert rest == line[|AvatarPrefix|..] by {
      ReplaceFirstAtStart(line, AvatarPrefix, "");
    }
    assert ClassifyLine(line) == Some(Message(Avatar, JsTrim(rest)));
  }

  /** Any other line is dropped, including a "You:" line indented by a space, since the prefix test sees the untrimmed line. */
  lemma OtherLineDropped(line: string)
    requires !(UserPrefix <= line) && !(AvatarPrefix <= line)
    ensures LineMessage(line) == None
  {
  }

  lemma IndentedUserLineDropped(rest: string)
    requires '\n' !in rest
    ensures Messages(" You:" + rest) == []
  {
    var line := " You:" + rest;
    assert '\n' !in line by {
      assert forall i :: 5 <= i < |line| ==> line[i] == rest[i - 5];
    }
    SplitCharAbsent(line, '\n');
    OtherLineDropped(line);
    FilterMapOne(line, LineMessage);
  }

  /** A bare "You:" still yields a user message, with empty text. */
  lemma BareUserLine()
    ensures Messages("You:") == [Message(User, "")]
  {
    var line := "You:";
    assert '\n' !in line;
    SplitCharAbsent(line, '\n');
    FilterMapOne(line, LineMessage);
    UserLine(line);
    assert line[|UserPrefix|..] == [];
    assert JsTrim([]) == [];
  }
}
