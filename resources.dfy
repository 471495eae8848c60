/** The Android resources the modelled code chooses between, as plain enumerations:
    colours (`R.color.*`), drawables (`R.drawable.*`) and strings (`R.string.*`). */
module Res {

  datatype ColorRes =
    | LabelStrong       // R.color.label_strong
    | LabelAssistive    // R.color.label_assistive
    | AccentRedNormal   // R.color.accent_red_normal
    | SecondaryNormal   // R.color.secondary_normal
    | SecondaryStrong   // R.color.secondary_strong
    | FillAssistive     // R.color.fill_assistive

  datatype DrawableRes =
    | BgInputError      // R.drawable.bg_input_error
    | BgInputFocus      // R.drawable.bg_input_focus
    | BgInputDefault    // R.drawable.bg_input_default

  datatype StringRes =
    | EditNameOption          // R.string.edit_name_option
    | MovePartOption          // R.string.move_part_option
    | DeleteOption            // R.string.delete_option
    | ReportOption            // R.string.report_option
    | EditFeedbackOption      // R.string.edit_feedback_option
    | TeamspaceRenameTitle    // R.string.teamspace_rename_title
    | TeamspaceActionKick     // R.string.teamspace_action_kick
}
