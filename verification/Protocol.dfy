/** What the clients and the analytics share of the JSON-RPC protocol. */
module Protocol {

  datatype RequestId = Number(number: int) | Text(text: string)
}
