/** The Filtered Transcript: what the command handler keeps of the channel
    history it retrieves (main.py:73-79, 89, 92). History is delivered
    newest-first; bot-authored messages are dropped, every other message
    becomes one "display name: content" line, and the lines are put back in
    chronological order before being joined. */
module Transcript {
  import opened Text

  /** One retrieved message: its author's display name, whether that author
      is a bot, and its text. */
  datatype Message = Message(authorName: string, isBot: bool, content: string)

  /** The line a human-authored message contributes (main.py:79). */
  function Line(m: Message): string
  {
    m.authorName + ": " + m.content
  }

  /** The lines the loop at main.py:76-79 appends, in the order the messages
      were retrieved. */
  function UserLines(ms: seq<Message>): seq<string>
  {
    if |ms| == 0 then []
    else (if ms[0].isBot then [] else [Line(ms[0])]) + UserLines(ms[1..])
  }

  /** The positions, ascending, of the human-authored messages at or after
      `from`: an index-level description of the same filter. */
  function UserIndicesFrom(ms: seq<Message>, from: nat): (r: seq<nat>)
    requires from <= |ms|
    ensures forall k :: 0 <= k < |r| ==> from <= r[k] < |ms|
    decreases |ms| - from
  {
    if from == |ms| then []
    else if ms[from].isBot then UserIndicesFrom(ms, from + 1)
    else [from] + UserIndicesFrom(ms, from + 1)
  }

  function UserIndices(ms: seq<Message>): seq<nat>
  {
    UserIndicesFrom(ms, 0)
  }

  /** The number of human-authored messages among `ms`. */
  function UserCount(ms: seq<Message>): nat
  {
    |UserIndices(ms)|
  }

  /** `lst.reverse()` as a value. */
  function Reversed<T>(s: seq<T>): (r: seq<T>)
    ensures |r| == |s|
  {
    if |s| == 0 then [] else Reversed(s[1..]) + [s[0]]
  }

  /** The joined text sent to the summariser (main.py:89, 92). */
  function TranscriptText(retrieved: seq<Message>): string
  {
    Join(Reversed(UserLines(retrieved)), '\n')
  }

  /** UserIndicesFrom picks exactly the human-authored positions at or after
      `from`, in strictly increasing order. */
  lemma {:induction false} UserIndicesFromExact(ms: seq<Message>, from: nat)
    requires from <= |ms|
    ensures forall i :: i in UserIndicesFrom(ms, from) <==> from <= i < |ms| && !ms[i].isBot
    ensures forall j, k :: 0 <= j < k < |UserIndicesFrom(ms, from)| ==>
              UserIndicesFrom(ms, from)[j] < UserIndicesFrom(ms, from)[k]
    ensures |UserIndicesFrom(ms, from)| <= |ms| - from
    decreases |ms| - from
  {
    if from < |ms| {
      UserIndicesFromExact(ms, from + 1);
      var t := UserIndicesFrom(ms, from + 1);
      if !ms[from].isBot {
        var r := UserIndicesFrom(ms, from);
        assert r == [from] + t;
        forall j, k | 0 <= j < k < |r| ensures r[j] < r[k] {
          assert r[k] == t[k - 1];
          if j > 0 {
            assert r[j] == t[j - 1];
          }
        }
      }
    }
  }

  /** The lines kept from `ms[from..]` are, one for one and in order, the
      lines of the messages at the positions UserIndicesFrom picks. */
  lemma {:induction false} UserLinesAtIndices(ms: seq<Message>, from: nat)
    requires from <= |ms|
    ensures |UserLines(ms[from..])| == |UserIndicesFrom(ms, from)|
    ensures forall k :: 0 <= k < |UserLines(ms[from..])| ==>
              UserLines(ms[from..])[k] == Line(ms[UserIndicesFrom(ms, from)[k]])
    decreases |ms| - from
  {
    if from < |ms| {
      UserLinesAtIndices(ms, from + 1);
      var lines, rest := UserLines(ms[from..]), UserLines(ms[from + 1..]);
      var idx, tail := UserIndicesFrom(ms, from), UserIndicesFrom(ms, from + 1);
      assert ms[from..][1..] == ms[from + 1..];
      assert ms[from..][0] == ms[from];
      if ms[from].isBot {
        assert lines == rest && idx == tail;
      } else {
        assert lines == [Line(ms[from])] + rest;
        assert idx == [from] + tail;
        forall k | 0 <= k < |lines| ensures lines[k] == Line(ms[idx[k]]) {
          if k > 0 {
            assert lines[k] == rest[k - 1] && idx[k] == tail[k - 1];
          }
        }
      }
    }
  }

  lemma UserLinesAt(ms: seq<Message>)
    ensures |UserLines(ms)| == |UserIndices(ms)|
    ensures forall k :: 0 <= k < |UserLines(ms)| ==> UserLines(ms)[k] == Line(ms[UserIndices(ms)[k]])
  {
    UserLinesAtIndices(ms, 0);
    assert ms[0..] == ms;
  }

  /** The transcript lines are exactly the human-authored messages: one line
      per such message, none for any bot message, in retrieval order. */
  lemma UserLinesExact(ms: seq<Message>)
    ensures |UserLines(ms)| == UserCount(ms) <= |ms|
    ensures forall i :: i in UserIndices(ms) <==> 0 <= i < |ms| && !ms[i].isBot
    ensures forall j, k :: 0 <= j < k < |UserIndices(ms)| ==> UserIndices(ms)[j] < UserIndices(ms)[k]
    ensures forall k :: 0 <= k < |UserLines(ms)| ==> UserLines(ms)[k] == Line(ms[UserIndices(ms)[k]])
  {
    UserIndicesFromExact(ms, 0);
    UserLinesAt(ms);
  }

  /** The transcript is empty exactly when every retrieved message is from a
      bot. */
  lemma {:induction false} UserLinesEmpty(ms: seq<Message>)
    ensures UserLines(ms) == [] <==> forall m :: m in ms ==> m.isBot
  {
    if |ms| > 0 {
      UserLinesEmpty(ms[1..]);
      assert forall m :: m in ms <==> m == ms[0] || m in ms[1..];
    }
  }

  /** Filtering distributes over concatenation of histories. */
  lemma {:induction false} UserLinesAppend(a: seq<Message>, b: seq<Message>)
    ensures UserLines(a + b) == UserLines(a) + UserLines(b)
  {
    if |a| == 0 {
      assert a + b == b;
    } else {
      UserLinesAppend(a[1..], b);
      assert (a + b)[1..] == a[1..] + b;
      assert (a + b)[0] == a[0];
    }
  }

  lemma {:induction false} ReversedAppend<T>(a: seq<T>, b: seq<T>)
    ensures Reversed(a + b) == Reversed(b) + Reversed(a)
  {
    if |a| == 0 {
      assert a + b == b;
      assert Reversed(b) + [] == Reversed(b);
    } else {
      ReversedAppend(a[1..], b);
      assert (a + b)[1..] == a[1..] + b;
      assert (a + b)[0] == a[0];
    }
  }

  /** Element `k` of the reversal is element `|s| - 1 - k` of the original. */
  lemma {:induction false} ReversedAt<T>(s: seq<T>, k: nat)
    requires k < |s|
    ensures Reversed(s)[k] == s[|s| - 1 - k]
  {
    if k < |s| - 1 {
      ReversedAt(s[1..], k);
    }
  }

  /** Reversing the kept lines gives the lines of the history read oldest
      first: the transcript is chronological whatever order the platform
      delivered it in. */
  lemma {:induction false} ReversedUserLines(ms: seq<Message>)
    ensures Reversed(UserLines(ms)) == UserLines(Reversed(ms))
  {
    if |ms| > 0 {
      var head := if ms[0].isBot then [] else [Line(ms[0])];
      ReversedUserLines(ms[1..]);
      ReversedAppend(head, UserLines(ms[1..]));
      UserLinesAppend(Reversed(ms[1..]), [ms[0]]);
      assert UserLines([ms[0]]) == head + UserLines([]);
      assert Reversed(head) == head;
    }
  }

  /** The transcript is the separator-joined lines of the human-authored
      messages taken oldest first. */
  lemma TranscriptChronological(retrieved: seq<Message>)
    ensures TranscriptText(retrieved) == Join(UserLines(Reversed(retrieved)), '\n')
  {
    ReversedUserLines(retrieved);
  }

  lemma LineUnbroken(m: Message)
    requires '\n' !in m.authorName && '\n' !in m.content
    ensures '\n' !in Line(m)
  {
  }

  /** Without line breaks in names or contents, no kept line holds one. */
  lemma {:induction false} UserLinesUnbroken(ms: seq<Message>)
    requires forall m :: m in ms ==> '\n' !in m.authorName && '\n' !in m.content
    ensures NoSeparator(UserLines(ms), '\n')
  {
    if |ms| > 0 {
      assert ms[0] in ms;
      LineUnbroken(ms[0]);
      assert forall m :: m in ms[1..] ==> m in ms;
      UserLinesUnbroken(ms[1..]);
    }
  }

  lemma ReversedNoSeparator(lines: seq<string>, sep: char)
    requires NoSeparator(lines, sep)
    ensures NoSeparator(Reversed(lines), sep)
  {
  }

  /** Element `k` of the reversed kept lines is the line of the `k`-th
      human-authored message counted from the oldest. */
  lemma ReversedUserLinesAt(ms: seq<Message>)
    ensures |Reversed(UserLines(ms))| == UserCount(ms)
    ensures forall k :: 0 <= k < UserCount(ms) ==>
              Reversed(UserLines(ms))[k] == Line(ms[UserIndices(ms)[UserCount(ms) - 1 - k]])
  {
    var lines, idx := UserLines(ms), UserIndices(ms);
    UserLinesAt(ms);
    forall k | 0 <= k < |idx| ensures Reversed(lines)[k] == Line(ms[idx[|idx| - 1 - k]]) {
      var j := |idx| - 1 - k;
      ReversedAt(lines, k);
      assert lines[j] == Line(ms[idx[j]]);
    }
  }

  /** When no author name or content holds a line break, the transcript has
      exactly one line per human-authored message, the oldest first. */
  lemma TranscriptLines(retrieved: seq<Message>)
    requires forall m :: m in retrieved ==> '\n' !in m.authorName && '\n' !in m.content
    requires UserCount(retrieved) > 0
    ensures |Split(TranscriptText(retrieved), '\n')| == UserCount(retrieved)
    ensures forall k :: 0 <= k < UserCount(retrieved) ==>
              Split(TranscriptText(retrieved), '\n')[k]
                == Line(retrieved[UserIndices(retrieved)[UserCount(retrieved) - 1 - k]])
  {
    var lines := UserLines(retrieved);
    UserLinesUnbroken(retrieved);
    ReversedNoSeparator(lines, '\n');
    ReversedUserLinesAt(retrieved);
    SplitJoin(Reversed(lines), '\n');
  }

  /** History delivered newest-first as C, B, A gives the transcript
      "A: …\nB: …\nC: …". */
  lemma ChronologicalExample()
    ensures TranscriptText([Message("C", false, "c"), Message("B", false, "b"), Message("A", false, "a")])
              == "A: a\nB: b\nC: c"
  {
  }
}
