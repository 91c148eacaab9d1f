/** What one polling tick does to the module's state dictionary: eleven keys
    copied out of the five responses, then `countdown` derived from the
    presentation. Absent data leaves a key holding `undefined`; the key is
    still written. */
module StateMerge {
  import opened Wrappers
  import opened Values
  import opened Countdown

  const ShowAlert := "show_alert"
  const SlideId := "slide_id"
  const SlideType := "slide_type"
  const SlideName := "slide_name"
  const SongId := "song_id"
  const ReferenceId := "reference_id"
  const SlideNumber := "slide_number"
  const SlideCount := "slide_count"
  const F8Active := "f8_active"
  const F9Active := "f9_active"
  const F10Active := "f10_active"
  const CountdownKey := "countdown"

  /** The keys copied straight from the responses. */
  const DirectKeys: set<string> := {ShowAlert, SlideId, SlideType, SlideName, SongId,
    ReferenceId, SlideNumber, SlideCount, F8Active, F9Active, F10Active}

  /** Every key a completed tick writes. */
  const TickKeys: set<string> := DirectKeys + {CountdownKey}

  /** `st` after the eleven direct writes of a tick, made in the source's order. */
  function WriteDirect(st: map<string, Value>, r: Responses): (written: map<string, Value>)
    ensures st.Keys <= written.Keys
    ensures CountdownKey in written <==> CountdownKey in st
    ensures CountdownKey in st ==> written[CountdownKey] == st[CountdownKey]
  {
    st[ShowAlert := if r.alert.Some? then r.alert.value.show else Undefined]
      [SlideId := if r.slide.Some? then r.slide.value.id else Undefined]
      [SlideType := if r.slide.Some? then r.slide.value.kind else Undefined]
      [SlideName := if r.slide.Some? then r.slide.value.name else Undefined]
      [SongId := if r.slide.Some? then r.slide.value.songId else Undefined]
      [ReferenceId := if r.slide.Some? then r.slide.value.referenceId else Undefined]
      [SlideNumber := if r.slide.Some? then r.slide.value.slideNumber else Undefined]
      [SlideCount := if r.slide.Some? then r.slide.value.totalSlides else Undefined]
      [F8Active := r.f8]
      [F9Active := r.f9]
      [F10Active := r.f10]
  }

  /** The string stored under `countdown`: empty when the presentation data
      is missing or the heuristic gives `null`, otherwise the heuristic's
      result; the heuristic's TypeError propagates. */
  function CountdownText(slide: Option<Presentation>): (r: Result<string, Fault>)
    ensures r.Ok? ==> IsClockText(r.value)
  {
    if slide.None? then Ok("")
    else
      match ExtractCountdown(slide)
      case Err(e) => Err(e)
      case Ok(None) => Ok("")
      case Ok(Some(t)) => Ok(t)
  }

  /** A tick either completes, and its state is then published to the host,
      or throws partway, leaving the direct writes already made. */
  datatype TickOutcome =
    | Published(state: map<string, Value>)
    | Aborted(state: map<string, Value>, fault: Fault)

  /** The state after one tick over the decoded responses `r`. */
  function NextState(st: map<string, Value>, r: Responses): (o: TickOutcome)
    ensures o.Published? <==> CountdownText(r.slide).Ok?
    ensures o.Published? ==> CountdownKey in o.state && o.state[CountdownKey].Str?
  {
    var direct := WriteDirect(st, r);
    match CountdownText(r.slide)
    case Ok(t) => Published(direct[CountdownKey := Str(t)])
    case Err(e) => Aborted(direct, e)
  }

  // ---------------------------------------------------------------------------
  // Where each key comes from, named by the JSON keys of the responses.

  /** `DataField(c, f)` is `<response of c>.data?.<f>`; `WholeData(c)` is `<response of c>?.data`. */
  datatype Origin = DataField(command: string, field: string) | WholeData(command: string)

  const Origins: map<string, Origin> := map[
    ShowAlert := DataField("GetAlert", "show"),
    SlideId := DataField("GetCurrentPresentation", "id"),
    SlideType := DataField("GetCurrentPresentation", "type"),
    SlideName := DataField("GetCurrentPresentation", "name"),
    SongId := DataField("GetCurrentPresentation", "song_id"),
    ReferenceId := DataField("GetCurrentPresentation", "reference_id"),
    SlideNumber := DataField("GetCurrentPresentation", "slide_number"),
    SlideCount := DataField("GetCurrentPresentation", "total_slides"),
    F8Active := WholeData("GetF8"),
    F9Active := WholeData("GetF9"),
    F10Active := WholeData("GetF10")]

  /** A presentation's property by its JSON key. */
  function PresentationKey(p: Presentation, key: string): Value {
    match key
    case "id" => p.id
    case "type" => p.kind
    case "name" => p.name
    case "song_id" => p.songId
    case "reference_id" => p.referenceId
    case "slide_number" => p.slideNumber
    case "total_slides" => p.totalSlides
    case _ => Undefined
  }

  /** The value an origin denotes among the responses of a tick. */
  function Resolve(r: Responses, o: Origin): Value {
    match o
    case DataField("GetAlert", "show") => if r.alert.Some? then r.alert.value.show else Undefined
    case DataField("GetCurrentPresentation", key) =>
      if r.slide.Some? then PresentationKey(r.slide.value, key) else Undefined
    case WholeData("GetF8") => r.f8
    case WholeData("GetF9") => r.f9
    case WholeData("GetF10") => r.f10
    case _ => Undefined
  }

  // ---------------------------------------------------------------------------
  // Properties of a tick.

  /** A completed tick adds exactly the twelve keys; an aborted one the eleven
      direct keys. */
  lemma TickWritesExactlyItsKeys(st: map<string, Value>, r: Responses)
    ensures NextState(st, r).Published? ==> NextState(st, r).state.Keys == st.Keys + TickKeys
    ensures NextState(st, r).Aborted? ==> NextState(st, r).state.Keys == st.Keys + DirectKeys
  {
  }

  /** Every key a tick does not write keeps its value; an aborted tick also
      leaves `countdown` as it was. */
  lemma TickKeepsOtherKeys(st: map<string, Value>, r: Responses, k: string)
    requires k in st && k !in DirectKeys
    requires k != CountdownKey || NextState(st, r).Aborted?
    ensures k in NextState(st, r).state && NextState(st, r).state[k] == st[k]
  {
  }

  /** Each direct key holds the value of its origin. */
  lemma TickCopiesOrigins(st: map<string, Value>, r: Responses, k: string)
    requires k in Origins
    ensures k in NextState(st, r).state && NextState(st, r).state[k] == Resolve(r, Origins[k])
  {
  }

  /** `countdown` always ends up a string: empty when the presentation data is
      missing or the heuristic gives `null`, the heuristic's result otherwise. */
  lemma TickCountdown(st: map<string, Value>, r: Responses)
    requires NextState(st, r).Published?
    ensures CountdownKey in NextState(st, r).state
    ensures NextState(st, r).state[CountdownKey] ==
      if r.slide.None? then Str("")
      else if ExtractCountdown(r.slide) == Ok(None) then Str("")
      else Str(ExtractCountdown(r.slide).value.value)
  {
  }

  /** A tick throws exactly when the descriptor passes the gate with an empty
      `slides` array. */
  lemma TickAbortsOnlyOnEmptySlides(st: map<string, Value>, r: Responses)
    ensures NextState(st, r).Aborted? <==>
      r.slide.Some? && Eligible(r.slide.value) && |r.slide.value.slides.value| == 0
  {
  }

  /** With every response's data missing the tick still completes: the direct
      keys hold `undefined` and `countdown` the empty string. */
  lemma TickWithoutData(st: map<string, Value>)
    ensures var o := NextState(st, Responses(None, None, Undefined, Undefined, Undefined));
      && o.Published?
      && o.state[CountdownKey] == Str("")
      && forall k | k in DirectKeys :: k in o.state && o.state[k] == Undefined
  {
  }

  /** Running the same tick again on its own result changes nothing. */
  lemma TickIdempotent(st: map<string, Value>, r: Responses)
    ensures NextState(NextState(st, r).state, r) == NextState(st, r)
  {
  }
}
