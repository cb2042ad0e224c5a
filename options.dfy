/** The optional value used throughout the model: `None` stands for a value the
    JavaScript code sees as missing (`undefined`, or a parse that failed). */
module Options {

  datatype Option<+T> = None | Some(value: T)
}
