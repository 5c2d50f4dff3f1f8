/** Values, errors and results shared by every part of the model. */
module Values {

  /** Column, attribute and database names: every dict of the model is keyed by one. */
  type Key = string

  /** A table cell or a record attribute.  `Null` is Python's `None`;
      `NaN` is the filler pandas writes where a concatenated frame had no
      such column. */
  datatype Value = Null | NaN | Num(x: real) | Text(s: string)

  /** The exceptions the modelled code raises, one constructor per cause. */
  datatype Error =
    | UnknownDatabase(name: string)           // ValueError from Database.__new__
    | ShapeMismatch(radii: nat, objects: nat) // AssertionError in query_radius
    | SourceAttributeMissing(attr: string)    // AttributeError from getattr on a source record
    | ZeroCallFrequency                       // ZeroDivisionError computing the wait interval
    | ZeroGroupSize                           // ZeroDivisionError computing the group count
    | InvalidGroupCount(count: int)           // ValueError from split when asked for fewer than one piece
    | InvalidPoolSize(size: int)              // ValueError from the thread pool constructor
    | RemoteFault(kind: string)               // a non-timeout exception of the remote call
    | MissingColumn(column: string)           // KeyError from selecting absent columns
    | OutputExists(path: string)              // ValueError: XREF file exists, no overwrite
    | RemoveFailed(path: string)              // IsADirectoryError from os.remove on a directory
    | ParentNotDirectory(path: string)        // OSError from mkdir: a path above the file is a file
    | UnknownCatalogType(catalogType: string) // KeyError from the catalog-type map
    | CatalogAttributeMissing(item: string)   // AttributeError from eROSITACatalog.__getattr__
    | BadCall(item: string)                   // TypeError: a method called with one argument too many

  datatype Option<+T> = None | Some(value: T)

  datatype Result<+T> = Ok(value: T) | Err(error: Error) {
    predicate IsFailure() {
      Err?
    }

    function PropagateFailure<U>(): Result<U>
      requires Err?
    {
      Err(error)
    }

    function Extract(): T
      requires Ok?
    {
      value
    }
  }
}
