/**
 * The shared record and enumeration of the reader (types.ts).
 */
module Types {
  /** One word token: the text as split from the document, the text with every
      non-word character removed, and the offset of the focus letter. */
  datatype WordData = WordData(original: string, clean: string, orpIndex: int)

  /** The phases of the reader's screen and of playback. */
  datatype ReaderState = IDLE | LOADING | READY | PLAYING | PAUSED | ERROR
}
