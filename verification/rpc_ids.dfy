/** The ids of JSON-RPC commands. */
module RpcIds {
  /**
   Absent ids are made up, by the sender or by the hub; null marks a notification; numbers are given by their text.
   */
  datatype CommandId = Absent | Null | Text(text: string) | Number(text: string)
}
