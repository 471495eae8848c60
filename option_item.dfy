/** `OptionItem`: one entry of an option popup, an id the caller branches on, a title and a
    text colour, and the preset entries the screens use. */
module Options {
  import opened Res

  const ID_EDIT_NAME := "edit_name"
  const ID_MOVE := "move"
  const ID_DELETE := "delete"
  const ID_REPORT := "report"
  const ID_EDIT_FEEDBACK := "edit_feedback"
  const ID_RENAME_TEAMSPACE := "rename_teamspace"
  const ID_KICK_MEMBER := "kick_member"

  datatype OptionItem = OptionItem(id: string, titleRes: StringRes, textColorRes: ColorRes)

  /** The constructor with its default text colour. */
  function Plain(id: string, titleRes: StringRes): (r: OptionItem)
    ensures r.id == id && r.titleRes == titleRes
    ensures r.textColorRes == LabelStrong
  {
    OptionItem(id, titleRes, LabelStrong)
  }

  function EditName(): OptionItem { Plain(ID_EDIT_NAME, EditNameOption) }

  function MovePart(): OptionItem { Plain(ID_MOVE, MovePartOption) }

  function Delete(): OptionItem { OptionItem(ID_DELETE, DeleteOption, AccentRedNormal) }

  /** `report()` as written: the report entry carries the delete id. */
  function ReportAsWritten(): OptionItem { OptionItem(ID_DELETE, ReportOption, AccentRedNormal) }

  /** `editFeedback()` as written: the edit-feedback entry carries the delete id. */
  function EditFeedbackAsWritten(): OptionItem { Plain(ID_DELETE, EditFeedbackOption) }

  /** `report()` with the id its constant was declared for. */
  function Report(): OptionItem { OptionItem(ID_REPORT, ReportOption, AccentRedNormal) }

  /** `editFeedback()` with the id its constant was declared for. */
  function EditFeedback(): OptionItem { Plain(ID_EDIT_FEEDBACK, EditFeedbackOption) }

  function RenameTeamspace(): OptionItem { Plain(ID_RENAME_TEAMSPACE, TeamspaceRenameTitle) }

  function KickMember(): OptionItem { OptionItem(ID_KICK_MEMBER, TeamspaceActionKick, AccentRedNormal) }

  /** Every preset entry as written, in declaration order. */
  function Presets(): seq<OptionItem> {
    [EditName(), MovePart(), Delete(), ReportAsWritten(), EditFeedbackAsWritten(), RenameTeamspace(), KickMember()]
  }

  /** The preset entries with the ids their constants were declared for. */
  function CorrectedPresets(): seq<OptionItem> {
    [EditName(), MovePart(), Delete(), Report(), EditFeedback(), RenameTeamspace(), KickMember()]
  }

  /** As written, delete, report and edit feedback (positions 2 to 4) share one id, and every
      other pair of presets has two different ids. */
  lemma PresetIdsShared()
    ensures forall i, j :: 0 <= i < j < |Presets()| ==>
      (Presets()[i].id == Presets()[j].id <==> 2 <= i && j <= 4)
    ensures forall o :: o in Presets()[2..5] ==> o.id == ID_DELETE
  {
  }

  /** With the corrected ids each preset has an id of its own, so the id tells the caller
      which entry was picked. */
  lemma CorrectedPresetIdsDistinct()
    ensures forall i, j :: 0 <= i < j < |CorrectedPresets()| ==>
      CorrectedPresets()[i].id != CorrectedPresets()[j].id
  {
  }

  /** The destructive entries (delete, report, kick) and only those are drawn in red; the
      others keep the default `label_strong`. The colours do not depend on the ids. */
  lemma PresetColours()
    ensures forall o :: o in Presets() + CorrectedPresets() ==>
      (o.textColorRes == AccentRedNormal <==> o.titleRes in {DeleteOption, ReportOption, TeamspaceActionKick})
    ensures forall o :: o in Presets() + CorrectedPresets() ==> o.textColorRes in {AccentRedNormal, LabelStrong}
  {
  }

  /** What the video list does with a picked entry (`handleVideoOption`). */
  datatype VideoAction = ShowEditNameDialog | ShowMoveToast | ShowDeleteToast | ShowReportToast | Ignore

  function HandleVideoOption(o: OptionItem): (r: VideoAction)
    ensures r == ShowDeleteToast <==> o.id == ID_DELETE
    ensures r == ShowReportToast <==> o.id == ID_REPORT
    ensures r == Ignore <==> o.id !in {ID_EDIT_NAME, ID_MOVE, ID_DELETE, ID_REPORT}
  {
    if o.id == ID_EDIT_NAME then ShowEditNameDialog
    else if o.id == ID_MOVE then ShowMoveToast
    else if o.id == ID_DELETE then ShowDeleteToast
    else if o.id == ID_REPORT then ShowReportToast
    else Ignore
  }

  /** As written, picking "report" on another user's video runs the delete branch, and the
      report branch can never be reached from a preset; the two feedback entries cannot be
      told apart from delete either. */
  lemma ReportAsWrittenRunsDelete()
    ensures HandleVideoOption(ReportAsWritten()) == ShowDeleteToast
    ensures ReportAsWritten().id == Delete().id && EditFeedbackAsWritten().id == Delete().id
    ensures ReportAsWritten().titleRes != Delete().titleRes
  {
  }

  /** With the ids corrected, "report" reaches the report branch and no entry is mistaken
      for another. */
  lemma ReportRunsReport()
    ensures HandleVideoOption(Report()) == ShowReportToast
    ensures HandleVideoOption(Delete()) == ShowDeleteToast
    ensures HandleVideoOption(EditName()) == ShowEditNameDialog
    ensures HandleVideoOption(MovePart()) == ShowMoveToast
    ensures Report().id != Delete().id && EditFeedback().id != Delete().id && EditFeedback().id != Report().id
  {
  }
}
