/**
 * What multiple dispatch asks of a type system. The runtype type systems
 * (host classes for plain dispatch, runtype types for `PythonTyping`) are
 * instances of this interface.
 */
module TypeSystems {
  datatype TypeSystem<!A, !T, !V> = TypeSystem(
    isInstance: (V, T) -> bool,  // `isinstance(value, type)`
    isSubclass: (T, T) -> bool,  // `issubclass(type, type)`
    getType: V -> T,             // `get_type(value)`, the memo key of one argument
    canonize: A -> T,            // `canonize_type(annotation)`
    anyType: T,                  // the top type
    defaultType: T)              // the type of an unannotated parameter
}
