/** What may go wrong with the file system during one call. */
module Disk {

  /** Reading fails; no file can be opened for writing; writing stops after some characters; renaming
      fails. */
  datatype Fault = NoFault | Reading | Opening | Writing(written: nat) | Renaming

  /** What a file holds when its writing stopped early. */
  function Torn(text: string, written: nat): (t: string)
    ensures t <= text && (written >= |text| ==> t == text)
  {
    if written < |text| then text[..written] else text
  }
}
