/**
  Refusing a state file in which a JSON object names a key twice: rejectDuplicateJSONKeys of
  internal/state/validation.go. The decoder's tokens are taken as given; a file it cannot tokenise is one whose
  tokens end in an error.
*/
module JsonKeys {
  import opened Common

  datatype Token = OpenObject | CloseObject | OpenArray | CloseArray | Text(text: string) | Other

  // ---- documents ----

  datatype Value = Plain | Word(text: string) | Array(items: seq<Value>) | Object(members: seq<Member>)

  datatype Member = Member(key: string, value: Value)

  function Print(v: Value): (tokens: seq<Token>)
    ensures tokens != [] && !Closes(tokens[0])
    decreases v
  {
    match v
    case Plain => [Other]
    case Word(text) => [Text(text)]
    case Array(items) => [OpenArray] + PrintItems(items) + [CloseArray]
    case Object(members) => [OpenObject] + PrintMembers(members) + [CloseObject]
  }

  function PrintItems(items: seq<Value>): seq<Token>
    decreases items
  {
    if items == [] then [] else Print(items[0]) + PrintItems(items[1..])
  }

  function PrintMembers(members: seq<Member>): seq<Token>
    decreases members
  {
    if members == [] then []
    else [Text(members[0].key)] + Print(members[0].value) + PrintMembers(members[1..])
  }

  /** No object anywhere in v has two members of one name. */
  predicate Unique(v: Value)
    decreases v
  {
    match v
    case Plain => true
    case Word(_) => true
    case Array(items) => forall i :: 0 <= i < |items| ==> Unique(items[i])
    case Object(members) =>
      && (forall i, j :: 0 <= i < j < |members| ==> members[i].key != members[j].key)
      && (forall i :: 0 <= i < |members| ==> Unique(members[i].value))
  }

  // ---- the walk as a function of the tokens left ----

  predicate Closes(t: Token) {
    t.CloseObject? || t.CloseArray?
  }

  /** The tokens left after one value, or None when it is refused. */
  function Walk(ts: seq<Token>): (r: Option<seq<Token>>)
    ensures r.Some? ==> |r.value| < |ts|
    decreases |ts|, 0
  {
    if ts == [] then None
    else
      match ts[0]
      case OpenObject => Members(ts[1..], {})
      case OpenArray => Items(ts[1..])
      case CloseObject => None
      case CloseArray => None
      case _ => Some(ts[1..])
  }

  function Items(ts: seq<Token>): (r: Option<seq<Token>>)
    ensures r.Some? ==> |r.value| < |ts|
    decreases |ts|, 1
  {
    if ts == [] then None
    else if Closes(ts[0]) then (if ts[0].CloseArray? then Some(ts[1..]) else None)
    else
      match Walk(ts)
      case None => None
      case Some(rest) => Items(rest)
  }

  function Members(ts: seq<Token>, seen: set<string>): (r: Option<seq<Token>>)
    ensures r.Some? ==> |r.value| < |ts|
    decreases |ts|, 1
  {
    if ts == [] then None
    else if Closes(ts[0]) then (if ts[0].CloseObject? then Some(ts[1..]) else None)
    else if !ts[0].Text? || ts[0].text in seen then None
    else
      match Walk(ts[1..])
      case None => None
      case Some(rest) => Members(rest, seen + {ts[0].text})
  }

  // ---- what the walk accepts ----

  predicate Fresh(members: seq<Member>, seen: set<string>) {
    && (forall i :: 0 <= i < |members| ==> members[i].key !in seen && Unique(members[i].value))
    && (forall i, j :: 0 <= i < j < |members| ==> members[i].key != members[j].key)
  }

  /** A printed value is walked over to its end if it has no duplicate key, and refused if it has one. */
  lemma {:induction false} WalkOfPrinted(v: Value, rest: seq<Token>)
    ensures Walk(Print(v) + rest) == if Unique(v) then Some(rest) else None
    decreases v, 1, 0
  {
    var ts := Print(v) + rest;
    match v
    case Plain => assert ts[1..] == rest;
    case Word(_) => assert ts[1..] == rest;
    case Array(items) =>
      assert ts[1..] == PrintItems(items) + ([CloseArray] + rest);
      WalkOfItems(v, items, rest);
    case Object(members) =>
      assert ts[1..] == PrintMembers(members) + ([CloseObject] + rest);
      WalkOfMembers(v, members, {}, rest);
      assert Unique(v) <==> Fresh(members, {});
  }

  lemma {:induction false} WalkOfItems(whole: Value, items: seq<Value>, rest: seq<Token>)
    requires forall i :: 0 <= i < |items| ==> items[i] < whole
    ensures Items(PrintItems(items) + ([CloseArray] + rest)) ==
            if forall i :: 0 <= i < |items| ==> Unique(items[i]) then Some(rest) else None
    decreases whole, 0, |items|
  {
    var tail := [CloseArray] + rest;
    var ts := PrintItems(items) + tail;
    if items == [] {
      assert ts == tail && tail[1..] == rest;
    } else {
      var more := PrintItems(items[1..]) + tail;
      assert ts == Print(items[0]) + more;
      assert ts[0] == Print(items[0])[0];
      WalkOfPrinted(items[0], more);
      WalkOfItems(whole, items[1..], rest);
      AllOrNone(items);
    }
  }

  lemma AllOrNone(items: seq<Value>)
    requires items != []
    ensures (forall i :: 0 <= i < |items| ==> Unique(items[i])) <==>
              Unique(items[0]) && forall i :: 0 <= i < |items[1..]| ==> Unique(items[1..][i])
  {
    if Unique(items[0]) && forall i :: 0 <= i < |items[1..]| ==> Unique(items[1..][i]) {
      forall i | 0 <= i < |items|
        ensures Unique(items[i])
      {
        assert i > 0 ==> items[i] == items[1..][i - 1];
      }
    }
  }

  lemma {:induction false} WalkOfMembers(whole: Value, members: seq<Member>, seen: set<string>, rest: seq<Token>)
    requires forall i :: 0 <= i < |members| ==> members[i].value < whole
    ensures Members(PrintMembers(members) + ([CloseObject] + rest), seen) == if Fresh(members, seen) then
              Some(rest) else None
    decreases whole, 0, |members|
  {
    var tail := [CloseObject] + rest;
    var ts := PrintMembers(members) + tail;
    if members == [] {
      assert ts == tail && tail[1..] == rest;
    } else {
      var m := members[0];
      var more := PrintMembers(members[1..]) + tail;
      assert ts == [Text(m.key)] + (Print(m.value) + more);
      assert ts[1..] == Print(m.value) + more;
      WalkOfPrinted(m.value, more);
      WalkOfMembers(whole, members[1..], seen + {m.key}, rest);
      FreshFirst(members, seen);
    }
  }

  lemma FreshFirst(members: seq<Member>, seen: set<string>)
    requires members != []
    ensures Fresh(members, seen) <==>
              members[0].key !in seen && Unique(members[0].value) && Fresh(members[1..], seen + {members[0].key})
  {
    var m, others := members[0], members[1..];
    assert forall i :: 0 <= i < |others| ==> others[i] == members[i + 1];
    if m.key !in seen && Unique(m.value) && Fresh(others, seen + {m.key}) {
      forall i | 0 <= i < |members|
        ensures members[i].key !in seen && Unique(members[i].value)
      {
        assert i > 0 ==> members[i] == others[i - 1];
      }
      forall i, j | 0 <= i < j < |members|
        ensures members[i].key != members[j].key
      {
        assert members[j] == others[j - 1];
        assert i > 0 ==> members[i] == others[i - 1];
      }
    }
  }

  /** The walk accepts nothing but a value without duplicate keys. */
  lemma {:induction false} WalkedIsPrinted(ts: seq<Token>) returns (v: Value)
    requires Walk(ts).Some?
    ensures Unique(v) && ts == Print(v) + Walk(ts).value
    decreases |ts|, 0
  {
    match ts[0]
    case OpenObject =>
      var members := WalkedMembers(ts[1..], {});
      v := Object(members);
      assert ts == [OpenObject] + ts[1..];
    case OpenArray =>
      var items := WalkedItems(ts[1..]);
      v := Array(items);
      assert ts == [OpenArray] + ts[1..];
    case Text(text) =>
      v := Word(text);
    case Other =>
      v := Plain;
  }

  lemma {:induction false} WalkedItems(ts: seq<Token>) returns (items: seq<Value>)
    requires Items(ts).Some?
    ensures forall i :: 0 <= i < |items| ==> Unique(items[i])
    ensures ts == PrintItems(items) + [CloseArray] + Items(ts).value
    decreases |ts|, 1
  {
    hide Unique, Walk, Print;
    if Closes(ts[0]) {
      items := [];
    } else {
      var v := WalkedIsPrinted(ts);
      var more := WalkedItems(Walk(ts).value);
      items := [v] + more;
      assert items[1..] == more;
      AllOrNone(items);
    }
  }

  lemma {:induction false} WalkedMembers(ts: seq<Token>, seen: set<string>) returns (members: seq<Member>)
    requires Members(ts, seen).Some?
    ensures Fresh(members, seen) && ts == PrintMembers(members) + [CloseObject] + Members(ts, seen).value
    decreases |ts|, 1
  {
    hide Unique, Walk, Print;
    if Closes(ts[0]) {
      members := [];
    } else {
      var key := ts[0].text;
      var v := WalkedIsPrinted(ts[1..]);
      var more := WalkedMembers(Walk(ts[1..]).value, seen + {key});
      members := [Member(key, v)] + more;
      assert members[1..] == more;
      FreshFirst(members, seen);
      assert ts == [Text(key)] + ts[1..];
    }
  }

  // ---- the decoder ----

  class Decoder {
    const tokens: seq<Token>
    var at: nat

    predicate Valid()
      reads this
    {
      at <= |tokens|
    }

    function Left(): seq<Token>
      requires Valid()
      reads this
    {
      tokens[at..]
    }

    constructor (tokens: seq<Token>)
      ensures Valid() && Left() == tokens && this.tokens == tokens
    {
      this.tokens := tokens;
      at := 0;
    }

    predicate More()
      requires Valid()
      reads this
    {
      at < |tokens| && !Closes(tokens[at])
    }

    /** The closure walk; false stands for any of its errors. */
    method WalkValue() returns (ok: bool)
      requires Valid()
      modifies this
      ensures Valid() && at >= old(at) && ok == Walk(old(Left())).Some?
      ensures ok ==> at > old(at) && Some(Left()) == Walk(old(Left()))
      decreases |tokens| - at, 0
    {
      if at == |tokens| {
        return false;
      }
      var token := tokens[at];
      at := at + 1;
      assert Left() == old(Left())[1..];
      match token
      case OpenObject =>
        ok := WalkObject();
      case OpenArray =>
        ok := WalkArray();
      case CloseObject =>
        ok := false;
      case CloseArray =>
        ok := false;
      case _ =>
        ok := true;
    }

    method WalkObject() returns (ok: bool)
      requires Valid()
      modifies this
      ensures Valid() && at >= old(at) && ok == Members(old(Left()), {}).Some?
      ensures ok ==> Some(Left()) == Members(old(Left()), {})
      decreases |tokens| - at, 1
    {
      var seen: set<string> := {};
      while More()
        invariant Valid() && at >= old(at) && Members(old(Left()), {}) == Members(Left(), seen)
        decreases |tokens| - at
      {
        var keyToken := tokens[at];
        assert Left()[1..] == tokens[at + 1..];
        at := at + 1;
        if !keyToken.Text? || keyToken.text in seen {
          return false;
        }
        var walked := WalkValue();
        if !walked {
          return false;
        }
        seen := seen + {keyToken.text};
      }
      if at == |tokens| {
        return false;
      }
      assert Left()[1..] == tokens[at + 1..];
      var closing := tokens[at];
      at := at + 1;
      return closing.CloseObject?;
    }

    method WalkArray() returns (ok: bool)
      requires Valid()
      modifies this
      ensures Valid() && at >= old(at) && ok == Items(old(Left())).Some?
      ensures ok ==> Some(Left()) == Items(old(Left()))
      decreases |tokens| - at, 1
    {
      while More()
        invariant Valid() && at >= old(at) && Items(old(Left())) == Items(Left())
        decreases |tokens| - at
      {
        var walked := WalkValue();
        if !walked {
          return false;
        }
      }
      if at == |tokens| {
        return false;
      }
      assert Left()[1..] == tokens[at + 1..];
      var closing := tokens[at];
      at := at + 1;
      return closing.CloseArray?;
    }
  }

  /** A file passes exactly when it is one value in which no object has two members of one name. */
  method RejectDuplicateKeys(tokens: seq<Token>, broken: bool) returns (ok: bool)
    ensures ok <==> !broken && exists v :: Unique(v) && tokens == Print(v)
  {
    var decoder := new Decoder(tokens);
    var walked := decoder.WalkValue();
    ok := walked && decoder.at == |tokens| && !broken;
    AcceptedExactly(tokens);
  }

  lemma AcceptedExactly(tokens: seq<Token>)
    ensures Walk(tokens) == Some([]) <==> exists v :: Unique(v) && tokens == Print(v)
  {
    if Walk(tokens) == Some([]) {
      var v := WalkedIsPrinted(tokens);
      assert tokens == Print(v);
    }
    forall v | Unique(v) && tokens == Print(v)
      ensures Walk(tokens) == Some([])
    {
      WalkOfPrinted(v, []);
      assert Print(v) + [] == tokens;
    }
  }

  /** So a document is refused exactly when one of its objects has a duplicate key, however deep. */
  lemma DocumentsPassIfUnique(v: Value)
    ensures Walk(Print(v)) == Some([]) <==> Unique(v)
  {
    WalkOfPrinted(v, []);
    assert Print(v) + [] == Print(v);
  }
}
