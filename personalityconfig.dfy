/** The personality settings dialog of
    src/components/personalityConfig/helperModals/PersonalityConfigModal.jsx: how a loaded personality
    fills the form (with `||` and `??` defaults), how the form becomes the saved payload, the guideline
    textarea and the checkbox edits. */
module PersonalityConfig {
  import opened Wrappers
  import JsText

  /** A speaking speed: a named pace or a numeric multiplier. */
  datatype Speed = Named(name: string) | Multiplier(value: real)

  /** The personality as the server returns it; every field may be missing. */
  datatype Personality = Personality(voiceId: Option<string>, speakingSpeed: Option<Speed>,
                                     empathyLevel: Option<string>, activePrompting: Option<bool>,
                                     reminderOffers: Option<bool>, reengageAfterSilence: Option<bool>,
                                     expertise: Option<string>, traits: Option<map<string, bool>>,
                                     conversationGuidelines: Option<seq<string>>)

  /** The form; the speed is kept as loaded and may be missing. */
  datatype Form = Form(voiceId: string, speakingSpeed: Option<Speed>, empathyLevel: string,
                       activePrompting: bool, reminderOffers: bool, reengageAfterSilence: bool,
                       expertiseMode: string, personalityTraits: map<string, bool>,
                       conversationGuidelines: seq<string>)

  /** The body of the save request. */
  datatype Payload = Payload(voiceId: string, speakingSpeed: Speed, empathyLevel: string,
                             activePrompting: bool, reminderOffers: bool, reengageAfterSilence: bool,
                             expertise: string, traits: map<string, bool>, conversationGuidelines: seq<string>)

  datatype Behavior = ActivePrompting | ReminderOffers | ReengageAfterSilence

  const DefaultTraits: map<string, bool> := map["calm" := true, "humorous" := false, "supportive" := true,
                                                "direct" := false]

  const InitialForm := Form("", Some(Named("normal")), "medium", true, true, true, "general", DefaultTraits, [])

  /** A JavaScript string is truthy when present and non-empty. */
  predicate Truthy(s: Option<string>) {
    s.Some? && s.value != ""
  }

  /** A speed is falsy when missing, the empty name or the number 0. */
  predicate TruthySpeed(s: Option<Speed>) {
    s.Some? && (s.value.Named? ==> s.value.name != "") && (s.value.Multiplier? ==> s.value.value != 0.0)
  }

  /** `||` on a string field. */
  function OrDefault(s: Option<string>, default: string): (r: string)
    ensures Truthy(s) ==> r == s.value
    ensures !Truthy(s) ==> r == default
  {
    if Truthy(s) then s.value else default
  }

  /** `??` on a flag: only a missing value takes the default, an explicit false is kept. */
  function FlagOrTrue(b: Option<bool>): (r: bool)
    ensures b.Some? ==> r == b.value
    ensures b.None? ==> r
  {
    if b.Some? then b.value else true
  }

  /** The response mapping of the load effect. */
  function FormOfPersonality(p: Personality): (f: Form)
    ensures f.voiceId == OrDefault(p.voiceId, "") && f.speakingSpeed == p.speakingSpeed
    ensures f.empathyLevel == OrDefault(p.empathyLevel, "medium") && f.expertiseMode == OrDefault(p.expertise, "general")
    ensures f.activePrompting == FlagOrTrue(p.activePrompting) && f.reminderOffers == FlagOrTrue(p.reminderOffers)
            && f.reengageAfterSilence == FlagOrTrue(p.reengageAfterSilence)
    ensures f.personalityTraits == (if p.traits.Some? then p.traits.value else DefaultTraits)
    ensures f.conversationGuidelines == (if p.conversationGuidelines.Some? then p.conversationGuidelines.value else [])
  {
    Form(OrDefault(p.voiceId, ""), p.speakingSpeed, OrDefault(p.empathyLevel, "medium"),
         FlagOrTrue(p.activePrompting), FlagOrTrue(p.reminderOffers), FlagOrTrue(p.reengageAfterSilence),
         OrDefault(p.expertise, "general"), if p.traits.Some? then p.traits.value else DefaultTraits,
         if p.conversationGuidelines.Some? then p.conversationGuidelines.value else [])
  }

  /** A personality with every field missing loads as the documented defaults, and the text fields
      that take a default are never left empty. */
  lemma LoadDefaults(p: Personality)
    ensures FormOfPersonality(Personality(None, None, None, None, None, None, None, None, None))
            == Form("", None, "medium", true, true, true, "general", DefaultTraits, [])
    ensures FormOfPersonality(p).empathyLevel != "" && FormOfPersonality(p).expertiseMode != ""
  {
  }

  /** The load effect: the form is replaced only when the server reports a personality. */
  function Load(f: Form, reply: Option<Personality>): (r: Form)
    ensures reply.None? ==> r == f
    ensures reply.Some? ==> r == FormOfPersonality(reply.value)
  {
    if reply.Some? then FormOfPersonality(reply.value) else f
  }

  /** What one line contributes to the payload: its trimmed text, or nothing when it is blank. */
  function Kept(line: string): (r: seq<string>)
    ensures |r| <= 1
    ensures JsText.Trim(line) == "" ==> r == []
    ensures JsText.Trim(line) != "" ==> r == [JsText.Trim(line)]
    ensures forall k :: 0 <= k < |r| ==> r[k] != "" && JsText.Trim(r[k]) == r[k]
  {
    JsText.TrimIdempotent(line);
    var t := JsText.Trim(line);
    if t == "" then [] else [t]
  }

  /** The payload's guidelines: each line trimmed, blank lines dropped. */
  function NormaliseGuidelines(lines: seq<string>): (r: seq<string>)
    ensures |r| <= |lines|
    ensures forall k :: 0 <= k < |r| ==> r[k] != "" && JsText.Trim(r[k]) == r[k]
    decreases |lines|
  {
    if lines == [] then [] else Kept(lines[0]) + NormaliseGuidelines(lines[1..])
  }

  /** Normalisation works line by line and keeps the order: it distributes over concatenation. */
  lemma {:induction false} NormaliseAppend(a: seq<string>, b: seq<string>)
    ensures NormaliseGuidelines(a + b) == NormaliseGuidelines(a) + NormaliseGuidelines(b)
    decreases |a|
  {
    if a == [] {
      assert a + b == b;
    } else {
      var head := Kept(a[0]);
      assert (a + b)[0] == a[0];
      assert (a + b)[1..] == a[1..] + b;
      assert NormaliseGuidelines(a + b) == head + NormaliseGuidelines(a[1..] + b);
      NormaliseAppend(a[1..], b);
    }
  }

  /** Every line that is not blank survives, trimmed. */
  lemma {:induction false} NormaliseKeepsLines(lines: seq<string>, k: nat)
    requires k < |lines| && JsText.Trim(lines[k]) != ""
    ensures JsText.Trim(lines[k]) in NormaliseGuidelines(lines)
    decreases |lines|
  {
    if k > 0 {
      NormaliseKeepsLines(lines[1..], k - 1);
    }
  }

  /** Lines that are already trimmed and non-blank are left exactly as they are. */
  lemma {:induction false} NormaliseFixed(lines: seq<string>)
    requires forall k :: 0 <= k < |lines| ==> lines[k] != "" && JsText.Trim(lines[k]) == lines[k]
    ensures NormaliseGuidelines(lines) == lines
    decreases |lines|
  {
    if lines != [] {
      NormaliseFixed(lines[1..]);
    }
  }

  /** Normalising twice is normalising once. */
  lemma NormaliseIdempotent(lines: seq<string>)
    ensures NormaliseGuidelines(NormaliseGuidelines(lines)) == NormaliseGuidelines(lines)
  {
    NormaliseFixed(NormaliseGuidelines(lines));
  }

  /** `handleSave`'s payload: a falsy speed becomes 1, the expertise and trait fields are renamed, and
      the guidelines are normalised. */
  function PayloadOfForm(f: Form): (p: Payload)
    ensures TruthySpeed(f.speakingSpeed) ==> p.speakingSpeed == f.speakingSpeed.value
    ensures !TruthySpeed(f.speakingSpeed) ==> p.speakingSpeed == Multiplier(1.0)
    ensures p.expertise == f.expertiseMode && p.traits == f.personalityTraits
    ensures p.conversationGuidelines == NormaliseGuidelines(f.conversationGuidelines)
    ensures p.voiceId == f.voiceId && p.empathyLevel == f.empathyLevel && p.activePrompting == f.activePrompting
            && p.reminderOffers == f.reminderOffers && p.reengageAfterSilence == f.reengageAfterSilence
  {
    Payload(f.voiceId, if TruthySpeed(f.speakingSpeed) then f.speakingSpeed.value else Multiplier(1.0),
            f.empathyLevel, f.activePrompting, f.reminderOffers, f.reengageAfterSilence,
            f.expertiseMode, f.personalityTraits, NormaliseGuidelines(f.conversationGuidelines))
  }

  /** A saved payload as the server hands it back: every field present under the same name. */
  function Saved(p: Payload): Personality {
    Personality(Some(p.voiceId), Some(p.speakingSpeed), Some(p.empathyLevel), Some(p.activePrompting),
                Some(p.reminderOffers), Some(p.reengageAfterSilence), Some(p.expertise), Some(p.traits),
                Some(p.conversationGuidelines))
  }

  /** Saving and loading again gives the form back, with its guidelines normalised and a falsy speed
      replaced by 1, provided the empathy and expertise fields are not empty (those would load as their
      defaults). A second save then sends the same payload. */
  lemma SaveReload(f: Form)
    requires f.empathyLevel != "" && f.expertiseMode != ""
    ensures FormOfPersonality(Saved(PayloadOfForm(f)))
            == f.(speakingSpeed := Some(PayloadOfForm(f).speakingSpeed),
                  conversationGuidelines := NormaliseGuidelines(f.conversationGuidelines))
    ensures PayloadOfForm(FormOfPersonality(Saved(PayloadOfForm(f)))) == PayloadOfForm(f)
  {
    NormaliseIdempotent(f.conversationGuidelines);
  }

  /** The textarea's text: the guideline lines joined by newlines. */
  function TextareaValue(lines: seq<string>): string {
    JsText.Join(lines, '\n')
  }

  /** Typing into the textarea: its text split on newlines, one guideline per line. */
  function FromTextarea(text: string): (lines: seq<string>)
    ensures |lines| >= 1 && forall k :: 0 <= k < |lines| ==> '\n' !in lines[k]
  {
    JsText.Split(text, '\n')
  }

  /** Whatever is typed is shown back unchanged. */
  lemma TextareaRoundTrip(text: string)
    ensures TextareaValue(FromTextarea(text)) == text
  {
    JsText.JoinSplit(text, '\n');
  }

  /** A loaded list of single-line guidelines is recovered from its textarea text. */
  lemma GuidelinesRoundTrip(lines: seq<string>)
    requires lines != [] && forall k :: 0 <= k < |lines| ==> '\n' !in lines[k]
    ensures FromTextarea(TextareaValue(lines)) == lines
  {
    JsText.SplitJoin(lines, '\n');
  }

  /** The trait checkbox shows a missing trait as unchecked. */
  predicate TraitChecked(f: Form, key: string) {
    key in f.personalityTraits && f.personalityTraits[key]
  }

  /** A trait checkbox sets its own key and no other field or trait. */
  function SetTrait(f: Form, key: string, checked: bool): (r: Form)
    ensures TraitChecked(r, key) == checked
    ensures r.personalityTraits.Keys == f.personalityTraits.Keys + {key}
    ensures forall k :: k in f.personalityTraits && k != key ==> r.personalityTraits[k] == f.personalityTraits[k]
    ensures r.(personalityTraits := f.personalityTraits) == f
  {
    f.(personalityTraits := f.personalityTraits[key := checked])
  }

  /** A behaviour checkbox sets its own flag and nothing else. */
  function SetBehavior(f: Form, b: Behavior, checked: bool): (r: Form)
    ensures b == ActivePrompting ==> r == f.(activePrompting := checked)
    ensures b == ReminderOffers ==> r == f.(reminderOffers := checked)
    ensures b == ReengageAfterSilence ==> r == f.(reengageAfterSilence := checked)
  {
    match b
    case ActivePrompting => f.(activePrompting := checked)
    case ReminderOffers => f.(reminderOffers := checked)
    case ReengageAfterSilence => f.(reengageAfterSilence := checked)
  }
}
