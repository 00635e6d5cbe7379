/** What the tool writes to its console, one constructor per line kind.
    Fixed Russian notices are named rather than spelled out; the comment
    on each says which stream it goes to. */
module Messages {
  import opened Json

  datatype Line =
    | Border(text: string)                          // stdout: a table rule
    | Header                                        // stdout: the column titles
    | Row(index: nat, name: Json, shop: Json, price: Json) // stdout: one good
    | ListEmpty                                     // stdout: "the list of goods is empty"
    | NoSuchShop                                    // stdout: "no such shop or no goods"
    | Validating                                    // stdout: "...validation..."
    | RecordOk(index: nat)                          // stdout: "Record i: OK"
    | RecordError(index: nat)                       // stderr: "Record i: ERROR"
    | LoadRejected                                  // stdout: "file failed validation, not loaded"
    | LoadAccepted                                  // stdout: "file loaded"
    | HelpText                                      // stdout: the command list
    | UnknownCommand(command: string)               // stderr: "unknown command <command>"
}
