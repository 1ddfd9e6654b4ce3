/** Why lazy expiry needs punctual commands: one answer and one offer whose lag straddles a deadline,
    and on which the lazy and the eager store disagree, each in its own direction. */
module LaggingHandoffs {
  import opened Wrappers
  import opened Tables
  import opened Commands
  import opened Handoffs
  import opened HandoffProtocol
  import opened LazyExpiry
  import Projects

  const OFFERER := Agent(7, "a")
  const RECIPIENT := Agent(8, "b")

  /** An offer made at 0 for one hour. */
  const OFFER := Handoff(1, 2, OFFERER, None, None, Offered, "", [], 1, 0, None, HOUR)

  function SessionOf(actor: Agent): Session
  {
    Session(actor, "n", SessionActive, false, 0, HOUR - 5, HOUR + 40)
  }

  /** Two live sessions, an intent of the first one's agent, and its open offer. */
  function Lazy(): Tables
  {
    Projects.EmptyTables().(
      sessions := map[2 := SessionOf(OFFERER), 3 := SessionOf(RECIPIENT)],
      intents := map[1 := Intent("", "", OFFERER, Active, None, 1, None)],
      handoffs := map[4 := OFFER],
      nextId := 5)
  }

  /** The same tables where every offer expires the instant it lapses, one second after the deadline. */
  function Eager(): Tables
  {
    Expiring(Lazy(), HOUR + 1)
  }

  lemma StoresAreRelated()
    ensures Related(Lazy(), Lazy(), 0) && Related(Lazy(), Eager(), HOUR + 1)
    ensures forall id: Id :: id in Eager().handoffs ==> !Lapsed(Eager().handoffs[id], HOUR + 1)
  {
    ExpiringKeepsRelation(Lazy(), Lazy(), 0, HOUR + 1);
  }

  /** A command that began one second before the deadline and takes effect one second after it. */
  const BEGAN: Time := HOUR - 1

  function Acceptance(): HandoffCommand
  {
    Answer(8, false, 1, 4, "accept", 0, AnswerInput(3, Accept, 1))
  }

  function SecondOffer(): HandoffCommand
  {
    Offer(7, false, 1, "again", 0, {}, OfferInput(2, "", [], 1))
  }

  /** The acceptance succeeds in the lazy store and is refused in the eager one. */
  lemma LazyAcceptsLate()
    ensures Related(Lazy(), Eager(), HOUR + 1)
    ensures Succeeds(Run(Lazy(), BEGAN, Acceptance())) && !Succeeds(Run(Eager(), BEGAN, Acceptance()))
  {
    StoresAreRelated();
    assert Answerable(Lazy(), BEGAN, Acceptance());
    assert Straddles(Lazy(), BEGAN, HOUR + 1, Acceptance());
    hide Run, Related, Answerable, Straddles;
    AnswersAgree(Lazy(), Eager(), BEGAN, HOUR + 1, Acceptance());
  }

  /** A second offer is refused in the lazy store, where the first still stands, and succeeds in the eager one. */
  lemma EagerOffersEarly()
    ensures Related(Lazy(), Eager(), HOUR + 1)
    ensures !Succeeds(Run(Lazy(), BEGAN, SecondOffer())) && Succeeds(Run(Eager(), BEGAN, SecondOffer()))
  {
    StoresAreRelated();
    assert Offerable(Lazy(), BEGAN, SecondOffer());
    assert 4 in Lazy().handoffs && DeadlineBetween(Lazy().handoffs[4], BEGAN, HOUR + 1);
    assert Straddles(Lazy(), BEGAN, HOUR + 1, SecondOffer());
    assert CommandKey(HandoffOffer, SecondOffer().key) !in Lazy().commands;
    hide Run, Related, Offerable, Straddles;
    OffersAgree(Lazy(), Eager(), BEGAN, HOUR + 1, SecondOffer());
  }
}
