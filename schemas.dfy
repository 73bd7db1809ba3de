/** The task record of app/schemas/common.py, reduced to the fields the matcher reads. */
module Schemas {
  import opened Options

  /**
   * A missed-task record. `level2Brain` is declared a list in the schema but the
   * matcher compares it with a single ability key by equality, so it is kept
   * here as one optional string.
   */
  datatype Task = Task(
    name: string,
    paradigm: Option<string>,
    level1Brain: Option<string>,
    level2Brain: Option<string>)
}
