/** The character mapping of wallet-code generation: one alphabet symbol per
    random byte. The random source itself is a parameter. */
module WalletCode {

  newtype byte = x: int | 0 <= x < 256

  /** The 62 symbols a code is drawn from. */
  const Alphabet: string := "ABCDEFGHIJKLMNOPQRSTUVWXYZabcdefghijklmnopqrstuvwxyz0123456789"

  /** The number of random bytes createWallet asks for. */
  const CodeLength: nat := 12

  /** Appends, byte by byte, the symbol the byte selects modulo the alphabet size. */
  method GenerateWalletCode(randomBytes: seq<byte>) returns (code: string)
    ensures |code| == |randomBytes|
    ensures forall i :: 0 <= i < |code| ==> code[i] == Alphabet[randomBytes[i] as int % |Alphabet|]
    ensures forall i :: 0 <= i < |code| ==> code[i] in Alphabet
  {
    code := "";
    for i := 0 to |randomBytes|
      invariant |code| == i
      invariant forall k :: 0 <= k < i ==> code[k] == Alphabet[randomBytes[k] as int % |Alphabet|]
    {
      code := code + [Alphabet[randomBytes[i] as int % |Alphabet|]];
    }
  }
}
