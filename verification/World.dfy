/** The data of transactions. */
module Entities {
  import opened Basics

  datatype Input = Input(transactionOutputId: string, transactionOutputIndex: u64, signature: string)
  datatype Output = Output(address: string, amount: u64)
  datatype Transaction = Transaction(id: string, inputs: seq<Input>, outputs: seq<Output>)
  datatype UnspentOutput = UnspentOutput(
    transactionId: string, transactionIndex: u64, address: string, amount: u64)
}

/** What the node takes from libraries and the machine, left uninterpreted. */
module Environment {
  import opened Basics
  import opened JsonValues
  import opened Entities

  /** - hash, sign(data, private key), verify(data, signature, public key): OpenSSL.
      - formatJson, parseJson: JsonCpp text; parsing throws (None) on text that is not JSON.
      - readTransactions: the transactions in the data of a block, or None when reading them throws;
        Wire says what reader the program uses, and the ledger works with any.
      - formatTime, parseTime: timestamps in seconds and their text.
      - outOfRange(accumulator, difficulty): what converting an accumulated double to int leaves
        behind when the sum does not fit, a value C++ does not define. */
  datatype World = World(
    hash: string -> string,
    sign: (string, string) -> string,
    verify: (string, string, string) -> bool,
    formatJson: Json -> string,
    parseJson: string -> Option<Json>,
    formatTime: int -> string,
    parseTime: string -> int,
    readTransactions: string -> Option<seq<Transaction>>,
    outOfRange: (int, u16) -> int
  )

  predicate CommaFree(text: string) {
    ',' !in text
  }

  // Digests are printed in hexadecimal, two digits a byte.
  ghost predicate HexDigests(w: World) {
    forall text :: CommaFree(w.hash(text)) && |w.hash(text)| == 40
  }

  // The timestamp format has no comma, and parsing a formatted timestamp gives it back.
  ghost predicate TimeCodec(w: World) {
    forall t :: CommaFree(w.formatTime(t)) && w.parseTime(w.formatTime(t)) == t
  }
}
