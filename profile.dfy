/** The enrolled record of one user and the template it is made of. */
module Profile {

  /** One grayscale sample, as the image library stores it (u8). */
  newtype byte = x: int | 0 <= x < 256

  /** A preprocessed frame: 64 x 64 binarised samples, row by row. The
      preprocessing is not part of this model, so templates, like those read
      back from a profile record, may have any length. */
  type Template = seq<byte>

  /** The record written at the end of enrollment. `createdAt` is the decimal
      rendering of the seconds since the epoch, kept as text as the record does. */
  datatype FaceProfile = FaceProfile(username: string, faceTemplates: seq<Template>, createdAt: string)
}
