/** The options of a griddle instance that the layout pass reads. */
module Config {

  datatype Option<T> = None | Some(value: T)

  /** `parentWidth` is the forced container width; 0 stands for the default `false`
      (both are falsy, so both let the container's measured width through). */
  datatype Options = Options(
    minHeight: real,
    maxHeight: real,
    parentWidth: real,
    minParentWidth: real,
    maxRatio: real)

  /** The plugin's defaults. */
  const Defaults := Options(
    minHeight := 0.0,
    maxHeight := 9999.0,
    parentWidth := 0.0,
    minParentWidth := 700.0,
    maxRatio := 99.0)
}
