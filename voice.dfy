/** `VoiceHandler`: the listening flag driven by the speech recogniser's
    events, the history of recognised transcripts, and the two-phrase
    classification of a transcript. The recogniser itself is outside the
    model: its events are the methods `OnStart`, `OnResult` and `OnEnd`. */
module Voice {
  import opened Text

  /** What `processCommand` reports for a transcript. */
  datatype Command = AddToCart | Checkout | Unrecognized(echo: string)

  const AddPhrase := "add to cart"
  const CheckoutPhrase := "checkout"

  /** `processCommand(transcript)`: lower-cases the transcript, then tests
      for "add to cart" before "checkout". */
  function ProcessCommand(transcript: string): (r: Command)
    ensures r == AddToCart <==> Contains(ToLower(transcript), AddPhrase)
    ensures r == Checkout <==>
      !Contains(ToLower(transcript), AddPhrase) && Contains(ToLower(transcript), CheckoutPhrase)
    ensures r.Unrecognized? <==>
      !Contains(ToLower(transcript), AddPhrase) && !Contains(ToLower(transcript), CheckoutPhrase)
    ensures r.Unrecognized? ==> r.echo == ToLower(transcript)
  {
    var t := ToLower(transcript);
    if Contains(t, AddPhrase) then AddToCart
    else if Contains(t, CheckoutPhrase) then Checkout
    else Unrecognized(t)
  }

  /** Classification ignores case: two transcripts that agree once
      lower-cased are classified alike, and a transcript is classified as
      its lower-cased form is. */
  lemma ProcessCommandIgnoresCase(a: string, b: string)
    requires ToLower(a) == ToLower(b)
    ensures ProcessCommand(a) == ProcessCommand(b)
    ensures ProcessCommand(ToLower(a)) == ProcessCommand(a)
  {
    ToLowerIdempotent(a);
  }

  /** A transcript holding both phrases, in either order, adds to the cart. */
  lemma BothPhrasesAddToCart(t: string, i: nat, j: nat)
    requires i + |AddPhrase| <= |t| && ToLower(t)[i..i + |AddPhrase|] == AddPhrase
    requires j + |CheckoutPhrase| <= |t| && ToLower(t)[j..j + |CheckoutPhrase|] == CheckoutPhrase
    ensures ProcessCommand(t) == AddToCart
  {
    ContainsAt(ToLower(t), AddPhrase, i);
  }

  /** A transcript holding "checkout" but not "add to cart" checks out. */
  lemma CheckoutWithoutAdd(t: string, j: nat)
    requires j + |CheckoutPhrase| <= |t| && ToLower(t)[j..j + |CheckoutPhrase|] == CheckoutPhrase
    requires !Contains(ToLower(t), AddPhrase)
    ensures ProcessCommand(t) == Checkout
  {
    ContainsAt(ToLower(t), CheckoutPhrase, j);
  }

  /** A transcript is left unrecognised exactly when neither phrase sits
      at any position of its lower-cased form. */
  lemma UnrecognizedIffNoPhrase(t: string)
    ensures ProcessCommand(t).Unrecognized? <==>
      forall i: nat :: !OccursAt(ToLower(t), AddPhrase, i) && !OccursAt(ToLower(t), CheckoutPhrase, i)
  {
    ContainsIffOccurs(ToLower(t), AddPhrase);
    ContainsIffOccurs(ToLower(t), CheckoutPhrase);
  }

  /** An entry of `commandHistory`; `time` is the clock reading the caller supplies. */
  datatype HistoryEntry = HistoryEntry(transcript: string, confidence: real, time: int)

  class VoiceHandler {
    var isListening: bool
    /** Whether the browser offers speech recognition; fixed at construction. */
    const isSupported: bool
    var commandHistory: seq<HistoryEntry>

    /** Only a supported recogniser ever starts, so listening implies support. */
    ghost predicate Valid()
      reads this
    {
      isListening ==> isSupported
    }

    /** `new VoiceHandler()`: not listening, with an empty history;
        `supported` says whether the recognition API exists. */
    constructor (supported: bool)
      ensures Valid()
      ensures isSupported == supported && !isListening && commandHistory == []
    {
      isSupported := supported;
      isListening := false;
      commandHistory := [];
    }

    /** `startListening()`: asks the recogniser to start, which it does only
        when supported and not already listening; the flag itself changes
        only when the recogniser reports `onstart`. */
    method StartListening() returns (startIssued: bool)
      requires Valid()
      ensures startIssued <==> isSupported && !isListening
    {
      startIssued := isSupported && !isListening;
    }

    /** `stopListening()`: asks the recogniser to stop, only when listening. */
    method StopListening() returns (stopIssued: bool)
      requires Valid()
      ensures stopIssued <==> isSupported && isListening
      ensures stopIssued <==> isListening
    {
      stopIssued := isSupported && isListening;
    }

    /** `recognition.onstart`: the recogniser is listening. The handlers are
        installed only when recognition is supported. */
    method OnStart()
      requires Valid() && isSupported
      modifies this
      ensures Valid()
      ensures isListening && commandHistory == old(commandHistory)
    {
      isListening := true;
    }

    /** `recognition.onend`: the recogniser has stopped. */
    method OnEnd()
      requires Valid() && isSupported
      modifies this
      ensures Valid()
      ensures !isListening && commandHistory == old(commandHistory)
    {
      isListening := false;
    }

    /** `recognition.onresult`: records exactly one history entry for the
        transcript, then classifies it. */
    method OnResult(transcript: string, confidence: real, time: int) returns (c: Command)
      requires Valid() && isSupported
      modifies this
      ensures Valid()
      ensures commandHistory == old(commandHistory) + [HistoryEntry(transcript, confidence, time)]
      ensures isListening == old(isListening)
      ensures c == ProcessCommand(transcript)
    {
      commandHistory := commandHistory + [HistoryEntry(transcript, confidence, time)];
      c := ProcessCommand(transcript);
    }
  }
}
