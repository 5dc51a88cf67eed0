/** The children of the `.video-info` container, where showErrorMessage
    places its message. Error messages are elements with an identity (the
    delayed removal refers to its own element); the container's other
    children are never touched and only their order matters here. */
module VideoInfo {

  datatype Node = ErrorMessage(id: nat, text: string) | Other(name: string)

  /** An error message as it appears: the element's identity and its text. */
  datatype Message = Message(id: nat, text: string)

  /** The `.error-message` children, in document order. */
  function Errors(s: seq<Node>): seq<Message>
  {
    if s == [] then []
    else (if s[0].ErrorMessage? then [Message(s[0].id, s[0].text)] else []) + Errors(s[1..])
  }

  /** The names of the other children, in document order. */
  function Others(s: seq<Node>): seq<string>
  {
    if s == [] then []
    else (if s[0].Other? then [s[0].name] else []) + Others(s[1..])
  }

  lemma {:induction false} ErrorsAppend(a: seq<Node>, b: seq<Node>)
    ensures Errors(a + b) == Errors(a) + Errors(b)
    decreases |a|
  {
    if a != [] {
      ErrorsAppend(a[1..], b);
      assert (a + b)[1..] == a[1..] + b;
    } else {
      assert a + b == b;
    }
  }

  lemma {:induction false} OthersAppend(a: seq<Node>, b: seq<Node>)
    ensures Others(a + b) == Others(a) + Others(b)
    decreases |a|
  {
    if a != [] {
      OthersAppend(a[1..], b);
      assert (a + b)[1..] == a[1..] + b;
    } else {
      assert a + b == b;
    }
  }

  /** `videoInfo.querySelector('.error-message')` followed by `remove()`:
      drops the first error message, if there is one. */
  function RemoveFirstError(s: seq<Node>): (r: seq<Node>)
    ensures |r| == if Errors(s) == [] then |s| else |s| - 1
  {
    if s == [] then []
    else if s[0].ErrorMessage? then s[1..]
    else [s[0]] + RemoveFirstError(s[1..])
  }

  /** Removing the first error message takes exactly that message out of the
      error list and keeps the other children in their order. */
  lemma {:induction false} RemoveFirstErrorSpec(s: seq<Node>)
    ensures Errors(RemoveFirstError(s)) == if Errors(s) == [] then [] else Errors(s)[1..]
    ensures Others(RemoveFirstError(s)) == Others(s)
    decreases |s|
  {
    if s != [] && !s[0].ErrorMessage? {
      RemoveFirstErrorSpec(s[1..]);
      ErrorsAppend([s[0]], RemoveFirstError(s[1..]));
      OthersAppend([s[0]], RemoveFirstError(s[1..]));
    }
  }

  /** Position i holds the first error message of s. */
  predicate FirstErrorAt(s: seq<Node>, i: int)
  {
    0 <= i < |s| && s[i].ErrorMessage? && forall j :: 0 <= j < i ==> !s[j].ErrorMessage?
  }

  /** Without an error message the removal changes nothing. */
  lemma {:induction false} RemoveFirstErrorNone(s: seq<Node>)
    requires Errors(s) == []
    ensures RemoveFirstError(s) == s
    decreases |s|
  {
    if s != [] {
      assert !s[0].ErrorMessage? && Errors(s[1..]) == [];
      RemoveFirstErrorNone(s[1..]);
      assert [s[0]] + s[1..] == s;
    }
  }

  /** The position of the first error message, where there is one. */
  function FirstError(s: seq<Node>): (i: nat)
    requires Errors(s) != []
    ensures FirstErrorAt(s, i)
    decreases |s|
  {
    if s[0].ErrorMessage? then 0 else 1 + FirstError(s[1..])
  }

  /** The exact shape of the removal: the first error message is cut out
      and both sides of it are kept as they were. */
  lemma {:induction false} RemoveFirstErrorExact(s: seq<Node>)
    requires Errors(s) != []
    ensures RemoveFirstError(s) == s[..FirstError(s)] + s[FirstError(s)+1..]
    decreases |s|
  {
    if !s[0].ErrorMessage? {
      var t := s[1..];
      var i := FirstError(t);
      RemoveFirstErrorExact(t);
      assert [s[0]] + t[..i] == s[..i+1];
      assert t[i+1..] == s[i+2..];
    }
  }

  /** The children after showErrorMessage(message) with `element` as the new
      element's identity: the earlier message removed, the new one appended. */
  function WithMessage(s: seq<Node>, element: nat, message: string): (r: seq<Node>)
    ensures |r| == if Errors(s) == [] then |s| + 1 else |s|
  {
    RemoveFirstError(s) + [ErrorMessage(element, message)]
  }

  /** With at most one error message before, exactly the new message is left
      after, and no other child is added, dropped or reordered. */
  lemma ShowLeavesOne(s: seq<Node>, element: nat, message: string)
    requires |Errors(s)| <= 1
    ensures Errors(WithMessage(s, element, message)) == [Message(element, message)]
    ensures Others(WithMessage(s, element, message)) == Others(s)
  {
    RemoveFirstErrorSpec(s);
    ErrorsAppend(RemoveFirstError(s), [ErrorMessage(element, message)]);
    OthersAppend(RemoveFirstError(s), [ErrorMessage(element, message)]);
  }

  /** Whether the element with this identity is attached (errorDiv.parentNode). */
  predicate Attached(s: seq<Node>, element: nat)
  {
    exists i :: 0 <= i < |s| && s[i].ErrorMessage? && s[i].id == element
  }

  /** `errorDiv.remove()`: takes out the element with this identity. */
  function Detach(s: seq<Node>, element: nat): (r: seq<Node>)
    ensures |r| <= |s|
  {
    if s == [] then []
    else if s[0].ErrorMessage? && s[0].id == element then Detach(s[1..], element)
    else [s[0]] + Detach(s[1..], element)
  }

  /** The messages other than the one with this identity. */
  function Without(ms: seq<Message>, element: nat): seq<Message>
  {
    if ms == [] then []
    else (if ms[0].id == element then [] else [ms[0]]) + Without(ms[1..], element)
  }

  /** Leaving messages out never adds one: the messages kept are those of
      the other identities, in order, and at most as many as before. */
  lemma {:induction false} WithoutKeeps(ms: seq<Message>, element: nat)
    ensures |Without(ms, element)| <= |ms|
    ensures forall m :: m in Without(ms, element) <==> m in ms && m.id != element
    decreases |ms|
  {
    if ms != [] {
      WithoutKeeps(ms[1..], element);
      assert ms == [ms[0]] + ms[1..];
    }
  }

  /** Detaching removes that element and nothing else: every other error
      message and every other child stays, in order. */
  lemma {:induction false} DetachSpec(s: seq<Node>, element: nat)
    ensures Others(Detach(s, element)) == Others(s)
    ensures Errors(Detach(s, element)) == Without(Errors(s), element)
    decreases |s|
  {
    if s != [] {
      DetachSpec(s[1..], element);
      var rest := Detach(s[1..], element);
      var head := if s[0].ErrorMessage? then [Message(s[0].id, s[0].text)] else [];
      var tail := Errors(s[1..]);
      assert Errors(s) == head + tail;
      if !(s[0].ErrorMessage? && s[0].id == element) {
        assert Detach(s, element) == [s[0]] + rest;
        ErrorsAppend([s[0]], rest);
        OthersAppend([s[0]], rest);
        assert [s[0]][1..] == [];
        assert Errors([s[0]]) == head;
        if head != [] {
          assert (head + tail)[1..] == tail;
        } else {
          assert head + tail == tail;
        }
      }
    }
  }

  /** After detaching, the element is no longer attached; an element that was
      not attached changes nothing. */
  lemma {:induction false} DetachRemoves(s: seq<Node>, element: nat)
    ensures !Attached(Detach(s, element), element)
    ensures !Attached(s, element) ==> Detach(s, element) == s
    decreases |s|
  {
    if s != [] {
      DetachRemoves(s[1..], element);
      var rest := Detach(s[1..], element);
      if !(s[0].ErrorMessage? && s[0].id == element) {
        assert Detach(s, element) == [s[0]] + rest;
        assert !Attached(s, element) ==> !Attached(s[1..], element) by {
          if Attached(s[1..], element) {
            var i :| 0 <= i < |s[1..]| && s[1..][i].ErrorMessage? && s[1..][i].id == element;
            assert s[i + 1] == s[1..][i];
          }
        }
      } else {
        assert Attached(s, element) by { assert s[0].ErrorMessage? && s[0].id == element; }
      }
    }
  }

  /** The delayed removal of a message that has since been replaced leaves the
      replacement in place. */
  lemma DetachReplaced(s: seq<Node>, element: nat)
    requires |Errors(s)| == 1 && Errors(s)[0].id != element
    ensures Errors(Detach(s, element)) == Errors(s)
    ensures Others(Detach(s, element)) == Others(s)
  {
    DetachSpec(s, element);
    var e := Errors(s);
    assert Without(e, element) == [e[0]] + Without(e[1..], element);
    assert e[1..] == [];
  }

  /** The delayed removal of the message that is still shown leaves no
      message. */
  lemma DetachCurrent(s: seq<Node>, element: nat)
    requires |Errors(s)| == 1 && Errors(s)[0].id == element
    ensures Errors(Detach(s, element)) == []
    ensures Others(Detach(s, element)) == Others(s)
  {
    DetachSpec(s, element);
    var e := Errors(s);
    assert Without(e, element) == Without(e[1..], element);
    assert e[1..] == [];
  }
}
