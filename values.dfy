/** The already-decoded data the module works on: JSON values as the device
    sends them, the records it reads fields from, and the connection config. */
module Values {
  import opened Wrappers

  /** A JavaScript value read out of a decoded JSON response. `Undefined` is
      what a missing key or an optional chain over missing data yields;
      `Other` stands for an array or object the module only passes along. */
  datatype Value =
    | Undefined
    | Null
    | Bool(b: bool)
    | Num(n: int)
    | Str(s: string)
    | Other

  /** `v == 1` with JavaScript's loose equality, for the values the model has:
      the number 1, and `true`, which coerces to 1. */
  predicate LooselyOne(v: Value) {
    v == Num(1) || v == Bool(true)
  }

  /** One entry of the presentation's `slides` array. */
  datatype Slide = Slide(text: string)

  /** The `data` object of a `GetCurrentPresentation` response. `kind` is the
      JSON key `type`; `slides` is `None` when that key is missing or null. */
  datatype Presentation = Presentation(
    id: Value,
    kind: Value,
    name: Value,
    songId: Value,
    referenceId: Value,
    slideNumber: Value,
    totalSlides: Value,
    slides: Option<seq<Slide>>)

  /** The `data` object of a `GetAlert` response. */
  datatype Alert = Alert(show: Value)

  /** One entry of the `data` array of a `GetBibleVersions` response. */
  datatype BibleVersion = BibleVersion(key: Value, title: Value)

  /** One entry of the version choice list offered to actions; `caption` is
      the JSON key `label`. */
  datatype Choice = Choice(id: Value, caption: Value)

  /** The connection settings the host hands to the module. */
  datatype Config = Config(host: string, port: nat, token: string)

  /** The five decoded responses of one polling tick. A `data` that is missing
      or null is `None` (for presentation and alert) or `Undefined`/`Null`
      (for the F8, F9 and F10 flags, which are copied whole). */
  datatype Responses = Responses(
    slide: Option<Presentation>,
    alert: Option<Alert>,
    f8: Value,
    f9: Value,
    f10: Value)
}
