/** The structured logger every component receives. Logging has no effect on
    any result, so the logger carries no state; only its presence (a non-nil
    pointer) matters, to the constructors that reject a nil one. */
module Logging {

  datatype Logger = Logger
}
