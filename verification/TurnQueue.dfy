/** The queue of unresolved throw results of one turn. */
module TurnQueue {
  import opened Domain

  const MAX_TOKENS := 32

  /** Identifiers are numbered; zero stands for the empty identifier. */
  type TokenID = nat
  type PlayerID = nat

  datatype Origin = InitialThrow | YutExtra | MoExtra | CaptureExtra

  datatype Token = Token(id: TokenID, result: YutResult, origin: Origin, player: PlayerID) {
    predicate Valid() {
      id != 0 && player != 0
    }
  }

  datatype TurnError =
    | InvalidToken | DuplicateID | QueueFull | StackedBuk
    | TokenNotFound | AlreadyConsumed | NotAvailable
    | InvalidTransition | UnexpectedOrigin | WrongPlayer | SelectedMismatch | InvalidOutcome

  /** The position of the first token that satisfies a test, or the length when none does. */
  function FirstBuk(tokens: seq<Token>): (i: nat)
    ensures i <= |tokens|
    ensures i < |tokens| ==> tokens[i].result == Buk
    ensures forall j :: 0 <= j < i ==> tokens[j].result != Buk
  {
    if tokens == [] || tokens[0].result == Buk then 0 else 1 + FirstBuk(tokens[1..])
  }

  function IndexOf(tokens: seq<Token>, id: TokenID): (i: nat)
    ensures i <= |tokens|
    ensures i < |tokens| ==> tokens[i].id == id
    ensures forall j :: 0 <= j < i ==> tokens[j].id != id
  {
    if tokens == [] || tokens[0].id == id then 0 else 1 + IndexOf(tokens[1..], id)
  }

  /** The tokens that may be resolved next: an unresolved Buk alone, else what the order exposes. */
  function Available(tokens: seq<Token>, order: MovementOrder): seq<Token> {
    var buk := FirstBuk(tokens);
    if buk < |tokens| then [tokens[buk]]
    else if order == Fifo && tokens != [] then [tokens[0]]
    else tokens
  }

  predicate HasID(tokens: seq<Token>, id: TokenID) {
    exists i :: 0 <= i < |tokens| && tokens[i].id == id
  }

  function Without(tokens: seq<Token>, index: nat): seq<Token>
    requires index < |tokens|
  {
    tokens[..index] + tokens[index + 1..]
  }

  /** The value of a queue: its unresolved tokens and every identifier it has ever held. */
  datatype Queue = Queue(tokens: seq<Token>, seen: set<TokenID>) {
    function Append(token: Token): Outcome<Queue, TurnError> {
      if !token.Valid() then Err(InvalidToken)
      else if token.id in seen then Err(DuplicateID)
      else if |tokens| >= MAX_TOKENS then Err(QueueFull)
      else if token.result == Buk && FirstBuk(tokens) < |tokens| then Err(StackedBuk)
      else Ok(Queue(tokens + [token], seen + {token.id}))
    }

    function Consume(id: TokenID, order: MovementOrder): Outcome<Queue, TurnError> {
      var index := IndexOf(tokens, id);
      if index == |tokens| then Err(if id in seen then AlreadyConsumed else TokenNotFound)
      else if !HasID(Available(tokens, order), id) then Err(NotAvailable)
      else Ok(Queue(Without(tokens, index), seen))
    }

    /** What every history of a queue keeps. */
    ghost predicate Inv() {
      && |tokens| <= MAX_TOKENS
      && (forall i :: 0 <= i < |tokens| ==> tokens[i].Valid() && tokens[i].id in seen)
      && (forall i, j :: 0 <= i < j < |tokens| ==> tokens[i].id != tokens[j].id)
      && (forall i, j :: 0 <= i < j < |tokens| && tokens[i].result == Buk ==> tokens[j].result != Buk)
    }

    function IDs(): set<TokenID> {
      set i | 0 <= i < |tokens| :: tokens[i].id
    }
  }

  const EMPTY_QUEUE := Queue([], {})

  /** Appending adds the token at the tail and reserves its identifier. */
  lemma AppendKeeps(q: Queue, token: Token)
    requires q.Inv() && q.Append(token).Ok?
    ensures var q' := q.Append(token).value;
      q'.Inv() && q'.IDs() == q.IDs() + {token.id} && token.id !in q.IDs() && q'.seen == q.seen + {token.id}
  {
    var q' := q.Append(token).value;
    assert q'.tokens[|q.tokens|] == token;
    forall id | id in q.IDs()
      ensures id in q'.IDs()
    {
      var i :| 0 <= i < |q.tokens| && q.tokens[i].id == id;
      assert q'.tokens[i].id == id;
    }
  }

  lemma WithoutElements(tokens: seq<Token>, k: nat)
    requires k < |tokens|
    ensures |Without(tokens, k)| == |tokens| - 1
    ensures forall i :: 0 <= i < k ==> Without(tokens, k)[i] == tokens[i]
    ensures forall i :: k <= i < |tokens| - 1 ==> Without(tokens, k)[i] == tokens[i + 1]
  {
  }

  lemma WithoutIDs(q: Queue, k: nat)
    requires q.Inv() && k < |q.tokens|
    ensures q.(tokens := Without(q.tokens, k)).IDs() == q.IDs() - {q.tokens[k].id}
  {
    hide Without;
    WithoutElements(q.tokens, k);
    var q' := q.(tokens := Without(q.tokens, k));
    forall id | id in q.IDs() - {q.tokens[k].id}
      ensures id in q'.IDs()
    {
      var i :| 0 <= i < |q.tokens| && q.tokens[i].id == id;
      assert q'.tokens[if i < k then i else i - 1].id == id;
    }
  }

  /** Consuming takes exactly the named token out and keeps the order of the rest. */
  lemma ConsumeKeeps(q: Queue, id: TokenID, order: MovementOrder)
    requires q.Inv() && q.Consume(id, order).Ok?
    ensures var q' := q.Consume(id, order).value;
      q'.Inv() && id in q.IDs() && q'.IDs() == q.IDs() - {id} && q'.seen == q.seen && |q'.tokens| == |q.tokens| - 1
    ensures forall t :: t in q.Consume(id, order).value.tokens ==> t in q.tokens && t.id != id
  {
    hide Available, Without, Queue.IDs;
    var k := IndexOf(q.tokens, id);
    WithoutIDs(q, k);
    WithoutElements(q.tokens, k);
    TokenIDPresent(q, k);
  }

  lemma TokenIDPresent(q: Queue, k: nat)
    requires k < |q.tokens|
    ensures q.tokens[k].id in q.IDs()
  {
  }

  /** An exposed token can always be consumed. */
  lemma AvailableIsConsumable(q: Queue, token: Token, order: MovementOrder)
    requires q.Inv() && token in Available(q.tokens, order)
    ensures token in q.tokens && q.Consume(token.id, order).Ok?
    ensures token.result != Buk ==> forall t :: t in q.tokens ==> t.result != Buk
    ensures token.result == Buk ==>
      forall t :: t in q.Consume(token.id, order).value.tokens ==> t.result != Buk
  {
    var available := Available(q.tokens, order);
    var i :| 0 <= i < |available| && available[i] == token;
    assert HasID(available, token.id);
    var k := IndexOf(q.tokens, token.id);
    var j :| 0 <= j < |q.tokens| && q.tokens[j] == token;
    assert k == j;
  }

  class ResultQueue {
    var tokens: seq<Token>
    var seenIDs: set<TokenID>

    function State(): Queue
      reads this
    {
      Queue(tokens, seenIDs)
    }

    constructor ()
      ensures State() == EMPTY_QUEUE
    {
      tokens, seenIDs := [], {};
    }

    method Append(token: Token) returns (r: Option<TurnError>)
      modifies this
      ensures match old(State()).Append(token)
        case Ok(q) => r == None && State() == q
        case Err(error) => r == Some(error) && State() == old(State())
    {
      if !token.Valid() {
        return Some(InvalidToken);
      }
      if token.id in seenIDs {
        return Some(DuplicateID);
      }
      if |tokens| >= MAX_TOKENS {
        return Some(QueueFull);
      }
      if token.result == Buk {
        for i := 0 to |tokens|
          invariant forall j :: 0 <= j < i ==> tokens[j].result != Buk
        {
          if tokens[i].result == Buk {
            return Some(StackedBuk);
          }
        }
      }
      tokens := tokens + [token];
      seenIDs := seenIDs + {token.id};
      return None;
    }

    method Exposed(order: MovementOrder) returns (r: seq<Token>)
      ensures r == Available(tokens, order)
    {
      for i := 0 to |tokens|
        invariant forall j :: 0 <= j < i ==> tokens[j].result != Buk
      {
        if tokens[i].result == Buk {
          return [tokens[i]];
        }
      }
      if order == Fifo && tokens != [] {
        return [tokens[0]];
      }
      return tokens;
    }

    method Consume(id: TokenID, order: MovementOrder) returns (r: Option<TurnError>)
      modifies this
      ensures match old(State()).Consume(id, order)
        case Ok(q) => r == None && State() == q
        case Err(error) => r == Some(error) && State() == old(State())
    {
      hide Available, FirstBuk;
      var index := 0;
      while index < |tokens| && tokens[index].id != id
        invariant 0 <= index <= |tokens|
        invariant forall j :: 0 <= j < index ==> tokens[j].id != id
      {
        index := index + 1;
      }
      assert index == IndexOf(tokens, id);
      if index == |tokens| {
        return Some(if id in seenIDs then AlreadyConsumed else TokenNotFound);
      }
      var available := Exposed(order);
      var found := false;
      for i := 0 to |available|
        invariant found <==> exists j :: 0 <= j < i && available[j].id == id
      {
        found := found || available[i].id == id;
      }
      if !found {
        return Some(NotAvailable);
      }
      tokens := tokens[..index] + tokens[index + 1..];
      return None;
    }
  }
}
