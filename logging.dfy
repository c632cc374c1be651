/**
 * The structured logger the middleware hands around (a zap logger): either
 * the no-op logger, which discards every record, or a logger that attaches a
 * fixed list of fields to every record it emits.
 */
module Logging {

  datatype Level = DebugLevel | InfoLevel | ErrorLevel

  datatype FieldValue = StringValue(s: string) | ErrorValue(e: string)

  datatype Field = Field(key: string, value: FieldValue)

  datatype Logger = Nop | Zap(fields: seq<Field>)
  {
    /** `log.With(extra...)`: a child logger whose records carry `extra` after the parent's fields. */
    function With(extra: seq<Field>): (l: Logger)
      ensures l.Nop? <==> this.Nop?
      ensures l.Zap? ==> (|l.fields| == |fields| + |extra|
                          && l.fields[..|fields|] == fields && l.fields[|fields|..] == extra)
    {
      match this
      case Nop => Nop
      case Zap(fs) => Zap(fs + extra)
    }
  }
}
