/** Two parts joined by a colon, split again at the first one. */
module ColonSeparated {

  function Encode(kind: string, name: string): string {
    kind + ":" + name
  }

  datatype Parts = NoSeparator | Parts(kind: string, name: string)

  /** Split at the first colon only. */
  function SplitOnce(s: string): Parts {
    if s == "" then NoSeparator
    else if s[0] == ':' then Parts("", s[1..])
    else
      match SplitOnce(s[1..])
      case NoSeparator => NoSeparator
      case Parts(kind, name) => Parts([s[0]] + kind, name)
  }

  /** Where a string is split, for every string. */
  lemma {:induction false} SplitExact(s: string)
    ensures SplitOnce(s) == NoSeparator <==> ':' !in s
    ensures SplitOnce(s).Parts? ==> ':' !in SplitOnce(s).kind && s == SplitOnce(s).kind + ":" + SplitOnce(s).name
  {
    if s != "" && s[0] != ':' {
      SplitExact(s[1..]);
      assert s == [s[0]] + s[1..];
    }
  }

  /** Decoding inverts encoding for every caller name, colons included. */
  lemma {:induction false} SplitInvertsEncode(kind: string, name: string)
    requires ':' !in kind
    ensures SplitOnce(Encode(kind, name)) == Parts(kind, name)
  {
    if kind == "" {
      assert Encode(kind, name)[1..] == name;
    } else {
      assert Encode(kind, name)[1..] == Encode(kind[1..], name);
      SplitInvertsEncode(kind[1..], name);
      assert [kind[0]] + kind[1..] == kind;
    }
  }

  /** Joining is injective when the first parts hold no colon. */
  lemma EncodeInjective(kind: string, name: string, kind': string, name': string)
    requires ':' !in kind && ':' !in kind' && Encode(kind, name) == Encode(kind', name')
    ensures kind == kind' && name == name'
  {
    SplitInvertsEncode(kind, name);
    SplitInvertsEncode(kind', name');
  }

  /** One name is the other up to one of its colons. */
  predicate Nested(kind: string, kind': string) {
    kind == kind' || kind + ":" <= kind' || kind' + ":" <= kind
  }

  lemma EqualAreNested(kind: string, name: string, kind': string, name': string)
    requires Encode(kind, name) == Encode(kind', name') && |kind| <= |kind'|
    ensures Nested(kind, kind')
  {
    var s := Encode(kind, name);
    assert s[..|kind|] == kind && s[..|kind'|] == kind' && s[|kind|] == ':';
    if |kind| < |kind'| {
      assert kind + ":" == s[..|kind| + 1] == kind'[..|kind| + 1];
    }
  }

  lemma NestedMeet(kind: string, kind': string) returns (name: string, name': string)
    requires kind == kind' || kind + ":" <= kind'
    ensures name != "" && name' != "" && Encode(kind, name) == Encode(kind', name')
  {
    name, name' := "x", "x";
    if kind != kind' {
      name := kind'[|kind| + 1..] + ":x";
      assert Encode(kind, name) == kind + ":" + kind'[|kind| + 1..] + ":x";
      assert kind + ":" + kind'[|kind| + 1..] == kind';
    }
  }

  /** Two first parts can be completed to the same string exactly when they are nested. */
  lemma MeetExact(kind: string, kind': string)
    ensures (exists name, name' :: name != "" && name' != "" && Encode(kind, name) == Encode(kind', name')) <==> Nested(kind, kind')
  {
    forall name, name' | Encode(kind, name) == Encode(kind', name') ensures Nested(kind, kind') {
      if |kind| <= |kind'| {
        EqualAreNested(kind, name, kind', name');
      } else {
        EqualAreNested(kind', name', kind, name);
      }
    }
    if kind == kind' || kind + ":" <= kind' {
      var name, name' := NestedMeet(kind, kind');
    } else if kind' + ":" <= kind {
      var name', name := NestedMeet(kind', kind);
      assert Encode(kind, name) == Encode(kind', name');
    }
  }
}
