/**
  * The colour scheme of a pod card (`getPodStyle` in
  * src/components/PodCard.jsx): the code of the id's last character, modulo
  * the table length, picks a row of two parallel six-entry tables.
  */
module PodStyle {
  import opened Wrappers

  /** `POD_GRADIENTS`: the card header gradients. */
  const PodGradients: seq<string> := [
    "from-violet-500/20 to-fuchsia-500/10",
    "from-blue-500/20 to-cyan-500/10",
    "from-amber-500/20 to-orange-500/10",
    "from-emerald-500/20 to-teal-500/10",
    "from-rose-500/20 to-pink-500/10",
    "from-indigo-500/20 to-blue-500/10"
  ]

  /** `POD_ICON_COLORS`: the folder icon colours, row for row with the gradients. */
  const PodIconColors: seq<string> := [
    "text-violet-500",
    "text-blue-500",
    "text-amber-500",
    "text-emerald-500",
    "text-rose-500",
    "text-indigo-500"
  ]

  /** The two class names a card is drawn with. */
  datatype Style = Style(gradient: string, iconColor: string)

  /** A pod id as the card receives it: absent (null/undefined) or a non-empty string. */
  predicate WellFormedId(podId: Option<string>) {
    podId.Some? ==> |podId.value| > 0
  }

  /** `(podId?.charCodeAt(podId?.length - 1) ?? 0) % POD_GRADIENTS.length`. */
  function StyleIndex(podId: Option<string>): (idx: nat)
    requires WellFormedId(podId)
    ensures idx < |PodGradients| && idx < |PodIconColors|
    ensures podId.None? ==> idx == 0
  {
    var code := match podId
      case None => 0
      case Some(s) => s[|s| - 1] as int;
    code % |PodGradients|
  }

  /** `getPodStyle`: the gradient and icon colour of one row of the tables. */
  function GetPodStyle(podId: Option<string>): (style: Style)
    requires WellFormedId(podId)
    ensures exists k :: 0 <= k < 6 && style == Style(PodGradients[k], PodIconColors[k])
  {
    var idx := StyleIndex(podId);
    Style(PodGradients[idx], PodIconColors[idx])
  }

  /** Both tables have six entries and no two rows share a gradient or a colour. */
  lemma TablesParallel()
    ensures |PodGradients| == 6 && |PodIconColors| == 6
    ensures forall i, j :: 0 <= i < j < 6 ==> PodGradients[i] != PodGradients[j]
    ensures forall i, j :: 0 <= i < j < 6 ==> PodIconColors[i] != PodIconColors[j]
  {
  }

  /** For a present id the row is the last character's code modulo 6. */
  lemma StyleIndexOfId(s: string)
    requires |s| > 0
    ensures 0 <= StyleIndex(Some(s)) < 6
    ensures StyleIndex(Some(s)) == (s[|s| - 1] as int) % 6
    ensures GetPodStyle(Some(s)) == Style(PodGradients[(s[|s| - 1] as int) % 6],
                                          PodIconColors[(s[|s| - 1] as int) % 6])
  {
  }

  /** A missing id gets the first row. */
  lemma MissingIdFirstRow()
    ensures GetPodStyle(None) == Style("from-violet-500/20 to-fuchsia-500/10", "text-violet-500")
  {
  }

  /** The style depends only on the last character of the id. */
  lemma StyleDependsOnLastChar(a: string, b: string)
    requires |a| > 0 && |b| > 0 && a[|a| - 1] == b[|b| - 1]
    ensures GetPodStyle(Some(a)) == GetPodStyle(Some(b))
  {
  }

  /** Two ids share a gradient exactly when they share an icon colour. */
  lemma GradientDeterminesIconColor(a: Option<string>, b: Option<string>)
    requires WellFormedId(a) && WellFormedId(b)
    ensures GetPodStyle(a).gradient == GetPodStyle(b).gradient <==>
            GetPodStyle(a).iconColor == GetPodStyle(b).iconColor
  {
    TablesParallel();
    var i, j := StyleIndex(a), StyleIndex(b);
    if i != j {
      if i < j { assert PodGradients[i] != PodGradients[j] && PodIconColors[i] != PodIconColors[j]; }
      else { assert PodGradients[j] != PodGradients[i] && PodIconColors[j] != PodIconColors[i]; }
    }
  }
}
