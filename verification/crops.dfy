/** The crop checkboxes: the farmer's selection is the list of checked
    crops, always in the order the boxes are shown. */
module Crops {

  datatype Crop = Milho | Soja | Algodao {
    /** The name shown next to the checkbox. */
    function Name(): string {
      match this
      case Milho => "Milho"
      case Soja => "Soja"
      case Algodao => "Algod\U{00E3}o"
    }

    /** Position of the checkbox on the page. */
    function Position(): nat {
      match this
      case Milho => 0
      case Soja => 1
      case Algodao => 2
    }
  }

  /** `culturas_selecionadas`: the ticked crops, each once, in checkbox
      order; empty exactly when nothing is ticked, which is when the page
      warns that at least one crop must be chosen. */
  function SelectedCrops(milho: bool, soja: bool, algodao: bool): (r: seq<Crop>)
    ensures Milho in r <==> milho
    ensures Soja in r <==> soja
    ensures Algodao in r <==> algodao
    ensures forall i, j :: 0 <= i < j < |r| ==> r[i].Position() < r[j].Position()
    ensures |r| == 0 <==> !milho && !soja && !algodao
  {
    (if milho then [Milho] else [])
    + (if soja then [Soja] else [])
    + (if algodao then [Algodao] else [])
  }

  /** The list of names the page builds and joins into its confirmation
      message: the checkbox names of the ticked crops, in checkbox order. */
  function SelectedNames(milho: bool, soja: bool, algodao: bool): (r: seq<string>)
    ensures |r| == |SelectedCrops(milho, soja, algodao)|
    ensures forall i :: 0 <= i < |r| ==> r[i] == SelectedCrops(milho, soja, algodao)[i].Name()
    ensures "Milho" in r <==> milho
    ensures "Soja" in r <==> soja
    ensures "Algod\U{00E3}o" in r <==> algodao
  {
    var crops := SelectedCrops(milho, soja, algodao);
    seq(|crops|, i requires 0 <= i < |crops| => crops[i].Name())
  }
}
