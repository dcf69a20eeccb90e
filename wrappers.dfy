/** A value that may be missing. In the metric kernels `None` stands for NumPy's NaN. */
module Wrappers {

  datatype Option<+T> = None | Some(value: T)
}
