/** An optional value. In this model `None` stands for "the source has no
    defined result here": it throws (std::stol on text without digits) or it
    would return an uninitialised variable. */
module Options {

  datatype Option<+T> = None | Some(value: T)

}
