/** Request shaping for the coach handler: how the handler names the caller,
    bounds the prompt, picks a prompt template and an output ceiling by mode,
    and reads the completion service's HTTP status. All of it is pure. */
module Shaping {

  datatype Option<T> = None | Some(value: T)

  /** Fallback key used when neither a user id nor a forwarding header is given. */
  const AnonymousKey: string := "anon"

  /** Longest prompt (in characters) that is passed on to a template. */
  const MaxPromptLength: nat := 2000

  /** The rate-limiting key of a request: the explicit user id, else the
      forwarding header, else the anonymous key. An absent field is "". */
  function UserKey(userId: string, forwardedFor: string): (key: string)
    ensures key != []
    ensures userId != [] ==> key == userId
    ensures userId == [] && forwardedFor != [] ==> key == forwardedFor
    ensures userId == [] && forwardedFor == [] ==> key == AnonymousKey
  {
    if userId != [] then userId
    else if forwardedFor != [] then forwardedFor
    else AnonymousKey
  }

  /** The prompt cut to at most MaxPromptLength characters. */
  function SafePrompt(prompt: string): (r: string)
    ensures |r| == if |prompt| < MaxPromptLength then |prompt| else MaxPromptLength
    ensures r == prompt[..|r|]
  {
    if |prompt| <= MaxPromptLength then prompt else prompt[..MaxPromptLength]
  }

  /** Truncating twice is truncating once, and a short prompt is left alone. */
  lemma SafePromptIdempotent(prompt: string)
    ensures SafePrompt(SafePrompt(prompt)) == SafePrompt(prompt)
    ensures |prompt| <= MaxPromptLength ==> SafePrompt(prompt) == prompt
  {
  }

  /** The four generation styles the handler serves. */
  datatype Mode = Quiz | Flashcards | Summary | Explain

  function ModeName(m: Mode): string
  {
    match m
    case Quiz => "quiz"
    case Flashcards => "flashcards"
    case Summary => "summary"
    case Explain => "explain"
  }

  /** The intended template lookup: exactly the four mode names are known. */
  function ParseMode(mode: string): (r: Option<Mode>)
    ensures r.Some? <==> mode in {"quiz", "flashcards", "summary", "explain"}
    ensures r.Some? ==> ModeName(r.value) == mode
  {
    if mode == "quiz" then Some(Quiz)
    else if mode == "flashcards" then Some(Flashcards)
    else if mode == "summary" then Some(Summary)
    else if mode == "explain" then Some(Explain)
    else None
  }

  lemma {:induction false} ParseModeName(m: Mode)
    ensures ParseMode(ModeName(m)) == Some(m)
  {
    match m
    case Quiz =>
    case Flashcards => assert ModeName(m) != "quiz";
    case Summary => assert ModeName(m) != "quiz" && ModeName(m) != "flashcards";
    case Explain =>
      assert ModeName(m) != "quiz" && ModeName(m) != "flashcards" && ModeName(m) != "summary";
  }

  /** The names every object literal inherits from Object.prototype. */
  const InheritedNames: set<string> := {
    "constructor", "__defineGetter__", "__defineSetter__", "hasOwnProperty",
    "__lookupGetter__", "__lookupSetter__", "isPrototypeOf",
    "propertyIsEnumerable", "toString", "valueOf", "__proto__", "toLocaleString"
  }

  /** What `prompts[mode]` yields on the object literal: one of its own
      templates, an inherited Object.prototype member, or undefined. */
  datatype Slot = OwnTemplate(mode: Mode) | InheritedMember(name: string) | Undefined
  {
    /** JavaScript truthiness: templates are non-empty strings and inherited
        members are functions or objects, so only undefined is falsy. */
    predicate Truthy() { !Undefined? }
  }

  /** The template lookup as the handler writes it: a property read on a
      plain object literal, guarded only by truthiness. */
  function LookupAsWritten(mode: string): (r: Slot)
    ensures r.Truthy() <==> ParseMode(mode).Some? || mode in InheritedNames
    ensures ParseMode(mode).Some? ==> r == OwnTemplate(ParseMode(mode).value)
  {
    match ParseMode(mode)
    case Some(m) => OwnTemplate(m)
    case None => if mode in InheritedNames then InheritedMember(mode) else Undefined
  }

  /** The guard at the lookup lets the mode "toString" through although it is
      none of the four modes, so that request goes on to the upstream call
      instead of being refused as an invalid mode. */
  lemma InheritedNamePassesGuard()
    ensures LookupAsWritten("toString").Truthy()
    ensures ParseMode("toString").None?
  {
    assert "toString" in InheritedNames;
  }

  /** Fixed per-mode instruction text; the wording is abbreviated here, each
      one ends where the (truncated) prompt is spliced in. */
  function Instructions(m: Mode): string
  {
    match m
    case Quiz => "Quiz: five multiple-choice questions as JSON. Notes/Topic: "
    case Flashcards => "Flashcards: eight cards as JSON. Notes/Topic: "
    case Summary => "Summary: title, sections and key terms as JSON. Notes/Topic: "
    case Explain => "Explain: analogy, example and common mistakes as JSON. Notes/Topic: "
  }

  /** The message sent upstream: the mode's instructions followed by the prompt. */
  function Template(m: Mode, safePrompt: string): (r: string)
    ensures |r| == |Instructions(m)| + |safePrompt|
    ensures r[..|Instructions(m)|] == Instructions(m)
    ensures r[|Instructions(m)|..] == safePrompt
  {
    Instructions(m) + safePrompt
  }

  /** The four instruction texts differ from each other. This is the only
      fact about the (abbreviated) wording that TemplateDeterminesMode uses;
      the source's four texts differ as well. */
  lemma InstructionsDistinct(m1: Mode, m2: Mode)
    requires Instructions(m1) == Instructions(m2)
    ensures m1 == m2
  {
    InstructionsLength(m1);
    InstructionsLength(m2);
  }

  /** The instruction texts already differ in length. */
  lemma InstructionsLength(m: Mode)
    ensures |Instructions(m)| == match m
      case Quiz => 59
      case Flashcards => 46
      case Summary => 61
      case Explain => 68
  {
    match m
    case Quiz =>
    case Flashcards =>
    case Summary =>
    case Explain =>
  }

  /** Two modes never produce the same message for the same prompt: the
      prompt is a common suffix, so the instruction texts must coincide. */
  lemma TemplateDeterminesMode(m1: Mode, m2: Mode, p: string)
    requires Template(m1, p) == Template(m2, p)
    ensures m1 == m2
  {
    assert |Instructions(m1)| == |Instructions(m2)|;
    InstructionsDistinct(m1, m2);
  }

  /** Output-size ceiling: larger for the list-shaped modes. */
  function MaxTokens(mode: string): (n: int)
    ensures n == 1500 <==> mode == "quiz" || mode == "flashcards"
    ensures n == 800 <==> !(mode == "quiz" || mode == "flashcards")
  {
    if mode == "quiz" || mode == "flashcards" then 1500 else 800
  }

  /** How the handler reports a completion-service status: a success status
      (2xx, the fetch API's `ok`) lets the reply through; 429 is passed on as
      "busy"; every other status is a generic service error. */
  datatype UpstreamOutcome = Proceed | Busy | ServiceError

  function ClassifyUpstream(status: int): (r: UpstreamOutcome)
    ensures r == Proceed <==> 200 <= status <= 299
    ensures r == Busy <==> status == 429
    ensures r == ServiceError <==> !(200 <= status <= 299) && status != 429
  {
    if 200 <= status <= 299 then Proceed
    else if status == 429 then Busy
    else ServiceError
  }
}
