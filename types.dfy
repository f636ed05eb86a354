/** The records of the entry tool. */
module Types {
  import opened Wrappers

  /** Row identifiers are opaque: the model only compares them. */
  type Id = int

  /** A row of the session's play list. Absent amounts are `None`. */
  datatype Play = Play(
    id: Id,
    betNumber: string,
    gameMode: string,
    straightAmount: Option<real>,
    boxAmount: Option<real>,
    comboAmount: Option<real>)

  /** A row produced by the quick-entry wizard (it has no id yet). */
  datatype WizardPlay = WizardPlay(
    betNumber: string,
    gameMode: string,
    straight: Option<real>,
    box: Option<real>,
    combo: Option<real>)

  /** A row read from a ticket image: no id and no mode. */
  datatype OcrResult = OcrResult(
    betNumber: string,
    straightAmount: Option<real>,
    boxAmount: Option<real>,
    comboAmount: Option<real>)

  /** The three stake amounts of a row, as copied and pasted between rows. */
  datatype Amounts = Amounts(straight: Option<real>, box: Option<real>, combo: Option<real>)

  datatype Track = Track(name: string, id: string)

  datatype TrackCategory = TrackCategory(name: string, tracks: seq<Track>)
}
