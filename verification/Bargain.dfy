/** The negotiation as a game: two ASAs hand an objective value back and forth
    under a falling loop count until one of them decides.  This is the reference
    that the client, the server session and their paired runs are proved against. */
module Bargain {
  import opened Wire

  datatype Side = ClientSide | ServerSide

  function Other(s: Side): Side {
    if s == ClientSide then ServerSide else ClientSide
  }

  datatype Verdict = Accepted | Declined | Synchronized(result: Value)

  /** The two callbacks an ASA overrides: `asa_negotiate_result` and `asa_geq_fn`. */
  datatype Asa = Asa(result: Value -> Value, geq: (Value, Value) -> bool)

  /** `kind` is the option type of the opening REQUEST. */
  datatype Game = Game(kind: OptionType, client: Asa, server: Asa)

  datatype Move = Counter(offer: Value) | Decide(verdict: Verdict)

  /** The client matches first and looks at the count second. */
  function ClientMove(g: Game, v: Value, m: int): Move {
    var answer := g.client.result(v);
    if g.client.geq(answer, v) then Decide(Accepted)
    else if m == 1 then Decide(Declined)
    else Counter(answer)
  }

  /** The server declines on the last count even when the values match, and answers
      a synchronization at once, whatever the count. */
  function ServerMove(g: Game, v: Value, m: int): Move {
    var answer := g.server.result(v);
    if g.kind == Synchronization then Decide(Synchronized(answer))
    else if m == 1 then Decide(Declined)
    else if g.server.geq(answer, v) then Decide(Accepted)
    else Counter(answer)
  }

  function MoveOf(g: Game, mover: Side, v: Value, m: int): Move {
    if mover == ClientSide then ClientMove(g, v, m) else ServerMove(g, v, m)
  }

  /** `last` is the value on the table when `decider` decides; `offers` counts the
      objective messages written, the opening one included. */
  datatype Outcome = Outcome(verdict: Verdict, last: Value, decider: Side, offers: nat)

  /** `mover` faces the offer `v` that carries the count `m`. */
  function Play(g: Game, mover: Side, v: Value, m: int): (o: Outcome)
    requires m >= 1
    ensures 1 <= o.offers <= m
    ensures o.decider == mover <==> o.offers % 2 == 1
    ensures o.verdict == Declined ==> o.offers == m
    ensures o.decider == ServerSide && o.verdict == Accepted ==> o.offers < m
    ensures o.verdict.Synchronized? <==> g.kind == Synchronization && o.decider == ServerSide
    decreases m
  {
    match MoveOf(g, mover, v, m)
    case Decide(d) => Outcome(d, v, mover, 1)
    case Counter(w) =>
      assert m > 1 by { Countered(g, mover, v, m); }
      var o := Play(g, Other(mover), w, m - 1);
      o.(offers := o.offers + 1)
  }

  lemma Countered(g: Game, mover: Side, v: Value, m: int)
    requires MoveOf(g, mover, v, m).Counter?
    ensures m != 1
  {
  }

  // ---------- an independent reading of Play ----------

  /** The k-th offer if nobody ever decides. */
  function OfferAt(g: Game, mover: Side, v: Value, k: nat): Value
    decreases k
  {
    if k == 0 then v
    else OfferAt(g, Other(mover), if mover == ClientSide then g.client.result(v) else g.server.result(v), k - 1)
  }

  function MoverAt(mover: Side, k: nat): Side {
    if k % 2 == 0 then mover else Other(mover)
  }

  /** The k-th offer, which carries m - k, is decided upon. */
  predicate Stops(g: Game, mover: Side, v: Value, m: int, k: nat) {
    MoveOf(g, MoverAt(mover, k), OfferAt(g, mover, v, k), m - k).Decide?
  }

  /** The game ends at the first offer that its receiver decides upon, with that
      offer on the table and that receiver's decision. */
  lemma {:induction false} PlayEndsAtFirstStop(g: Game, mover: Side, v: Value, m: int)
    requires m >= 1
    ensures var o := Play(g, mover, v, m);
            var k := o.offers - 1;
            && Stops(g, mover, v, m, k)
            && (forall j: nat | j < k :: !Stops(g, mover, v, m, j))
            && o.last == OfferAt(g, mover, v, k)
            && o.decider == MoverAt(mover, k)
            && MoveOf(g, o.decider, o.last, m - k) == Decide(o.verdict)
    decreases m
  {
    match MoveOf(g, mover, v, m)
    case Decide(_) =>
      assert Stops(g, mover, v, m, 0);
    case Counter(w) =>
      Countered(g, mover, v, m);
      PlayEndsAtFirstStop(g, Other(mover), w, m - 1);
      var o := Play(g, mover, v, m);
      assert MoverAt(mover, o.offers - 1) == MoverAt(Other(mover), o.offers - 2);
      assert OfferAt(g, mover, v, o.offers - 1) == OfferAt(g, Other(mover), w, o.offers - 2);
      forall j: nat | j < o.offers - 1
        ensures !Stops(g, mover, v, m, j)
      {
        if j > 0 {
          assert !Stops(g, Other(mover), w, m - 1, j - 1);
          assert MoverAt(mover, j) == MoverAt(Other(mover), j - 1);
        }
      }
  }

  /** How long a game lasts can be told from its inputs: at most j offers, exactly if the
      count is no more than that or one of the first j offers is decided upon. */
  lemma OffersAtMost(g: Game, mover: Side, v: Value, m: int, j: nat)
    requires m >= 1
    ensures Play(g, mover, v, m).offers <= j <==> m <= j || exists k: nat | k < j :: Stops(g, mover, v, m, k)
  {
    hide Play, Stops;
    PlayEndsAtFirstStop(g, mover, v, m);
  }

  /** An ASA that nothing satisfies. */
  function Stubborn(): Asa {
    Asa(v => v, (_, _) => false)
  }

  /** Between two such ASAs a negotiation that opens with 5 takes all five offers, and
      the server declines the last. */
  lemma StubbornGame(v: Value)
    ensures Play(Game(Negotiation, Stubborn(), Stubborn()), ServerSide, v, 5)
            == Outcome(Declined, v, ServerSide, 5)
  {
    var g := Game(Negotiation, Stubborn(), Stubborn());
    assert Play(g, ServerSide, v, 1) == Outcome(Declined, v, ServerSide, 1);
    assert Play(g, ClientSide, v, 2) == Outcome(Declined, v, ServerSide, 2);
    assert Play(g, ServerSide, v, 3) == Outcome(Declined, v, ServerSide, 3);
    assert Play(g, ClientSide, v, 4) == Outcome(Declined, v, ServerSide, 4);
  }

  /** An ASA that anything satisfies. */
  function Easy(): Asa {
    Asa(v => v, (_, _) => true)
  }

  /** The two sides are not alike on the last count: a server that could agree declines,
      and a client that can agree accepts. */
  lemma LastCountIsAsymmetric(v: Value)
    ensures Play(Game(Negotiation, Easy(), Easy()), ServerSide, v, 1) == Outcome(Declined, v, ServerSide, 1)
    ensures Play(Game(Negotiation, Easy(), Stubborn()), ServerSide, v, 2) == Outcome(Accepted, v, ClientSide, 2)
    ensures Play(Game(Negotiation, Easy(), Easy()), ServerSide, v, 2) == Outcome(Accepted, v, ServerSide, 1)
  {
    assert Play(Game(Negotiation, Easy(), Stubborn()), ClientSide, v, 1) == Outcome(Accepted, v, ClientSide, 1);
  }

  /** Both sides ask whether their own answer reaches the offer, not the other way round:
      an ASA that can give `mine` takes every offer no longer than that, and no other. */
  lemma OwnAnswerIsComparedWithOffer(g: Game, mine: Value, v: Value, m: int)
    requires m >= 2 && g.kind == Negotiation
    requires g.client == g.server == Asa(_ => mine, (x: Value, y: Value) => |x| >= |y|)
    ensures ServerMove(g, v, m) == ClientMove(g, v, m) == if |v| <= |mine| then Decide(Accepted) else Counter(mine)
  {
  }

  /** Turn parity.  The opening offer goes to the server, so with an odd count the
      last offer reaches the server and only the server can run out of counts; with
      an even count only the client can. */
  lemma ExhaustionParity(g: Game, v: Value, n: int)
    requires n >= 1 && Play(g, ServerSide, v, n).verdict == Declined
    ensures Play(g, ServerSide, v, n).decider == if n % 2 == 1 then ServerSide else ClientSide
  {
    assert Play(g, ServerSide, v, n).offers == n;
  }
}
