/**
 * The data classes of the app (MainActivity.kt, lines 48-60).
 *
 * Android resource identifiers (`R.raw.*`, `R.string.*`) are generated integers;
 * here each one is named by its resource name, which is just as distinct.
 */
module Model {
  import opened Options

  /** Kotlin's `Int`. */
  newtype int32 = x: int | -0x8000_0000 <= x < 0x8000_0000

  /** A resource name such as `default_1` (raw text file) or `layer_name_default_1` (string). */
  type ResId = string

  /** `data class Question(val text: String)`: equality, and so set membership, go by text. */
  datatype Question = Question(text: string)

  /**
   * `data class Layer(id, nameResId, resourceId, resourceIdEn = null)`: a graded set of
   * questions backed by a default-language (Italian) text resource and, optionally,
   * an English one.
   */
  datatype Layer = Layer(id: int32, nameRes: ResId, resource: ResId, resourceEn: Option<ResId>)

  /** The three Material icons the topics use. */
  datatype Icon = Diversity3 | LocalFireDepartment | Star

  /** `data class Topic(id, nameResId, icon, layers)` */
  datatype Topic = Topic(id: string, nameRes: ResId, icon: Icon, layers: seq<Layer>)
}
