/** Optional values, and the one piece of configuration the classifiers read. */
module Wrappers {

  datatype Option<+T> = None | Some(value: T)

  /**
   * An API key read from the environment (`os.getenv`, app/external.py:9-10):
   * `None` when the variable is unset. The source tests it with Python
   * truthiness (`if not KEY` / `if KEY`), so an empty string counts as absent.
   */
  predicate Configured(key: Option<string>)
  {
    key.Some? && key.value != ""
  }
}
