/** The errors the pipeline stages send on their error channels. */
module Errors {

  datatype Error =
    /** binary.Read found no bytes at all for the header (io.EOF). */
    | Eof
    /** binary.Read found some, but fewer than the header's size (io.ErrUnexpectedEOF). */
    | UnexpectedEof
    /** An error returned by a collaborator whose body is outside this model
        (readArgFromBuff, processEvent, prepareArgsForPrint, newEvent). */
    | External(message: string)
    /** "invalid arg tag for event %d" */
    | InvalidArgTag(eventId: int)
    /** "invalid arg type for arg name %s of event %d" */
    | InvalidArgType(argName: string, eventId: int)
}
