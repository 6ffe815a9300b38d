/** The new-project form (CreateProjectPage.xaml.cs): five guards checked in
    order, then the request body. Date parsing is the parameter
    parsesAsDate, standing for DateTime.TryParse. */
module CreateProject {
  import opened Wrappers
  import opened Strings
  import opened Forms

  datatype ProjectForm = ProjectForm(title: string, startDate: string, projectType: Selection, description: string)

  /** The body posted to the project endpoint. */
  datatype ProjectRequest = ProjectRequest(title: string, startdate: string, projecttype: string, description: string)

  datatype ProjectError = InvalidTitle | InvalidStartDate | MissingProjectType | MissingDescription | InvalidProjectType

  const TitlePlaceholder := "Enter project title"
  const DatePlaceholder := "YYYY-MM-DD"
  const DescriptionPlaceholder := "Enter description"

  /** The message box text of each rejection. */
  function Message(e: ProjectError): string {
    match e
    case InvalidTitle => "Please enter a valid project title."
    case InvalidStartDate => "Please enter a valid start date (YYYY-MM-DD)."
    case MissingProjectType => "Please select a project type."
    case MissingDescription => "Please enter a description."
    case InvalidProjectType => "Please select a valid project type."
  }

  predicate DateAccepted(startDate: string, parsesAsDate: string -> bool) {
    !Unfilled(startDate, DatePlaceholder) && parsesAsDate(startDate)
  }

  /** The selected item's content is present and not blank. */
  predicate TypeNamed(selection: Selection) {
    selection.Selected? && selection.content.Some? && !IsBlank(selection.content.value)
  }

  /** btnCreate_Click up to the request: the first failing guard, or the
      body built from the fields as typed. */
  function ValidateProject(form: ProjectForm, parsesAsDate: string -> bool): (r: Result<ProjectRequest, ProjectError>)
    ensures r.Success? <==>
      && !Unfilled(form.title, TitlePlaceholder) && DateAccepted(form.startDate, parsesAsDate)
      && !Unfilled(form.description, DescriptionPlaceholder) && TypeNamed(form.projectType)
    ensures r.Success? ==>
      r.value == ProjectRequest(form.title, form.startDate, form.projectType.content.value, form.description)
  {
    if Unfilled(form.title, TitlePlaceholder) then Failure(InvalidTitle)
    else if Unfilled(form.startDate, DatePlaceholder) || !parsesAsDate(form.startDate) then Failure(InvalidStartDate)
    else if form.projectType.NoSelection? then Failure(MissingProjectType)
    else if Unfilled(form.description, DescriptionPlaceholder) then Failure(MissingDescription)
    else
      var projectType := form.projectType.content;
      if IsNullOrWhiteSpace(projectType) then Failure(InvalidProjectType)
      else Success(ProjectRequest(form.title, form.startDate, projectType.value, form.description))
  }

  /** Only the first failing guard is reported; the item's content is
      checked only after the description. */
  lemma ProjectFirstFailure(form: ProjectForm, parsesAsDate: string -> bool)
    ensures ValidateProject(form, parsesAsDate) == Failure(InvalidTitle) <==> Unfilled(form.title, TitlePlaceholder)
    ensures ValidateProject(form, parsesAsDate) == Failure(InvalidStartDate)
      <==> !Unfilled(form.title, TitlePlaceholder) && !DateAccepted(form.startDate, parsesAsDate)
    ensures ValidateProject(form, parsesAsDate) == Failure(MissingProjectType)
      <==> !Unfilled(form.title, TitlePlaceholder) && DateAccepted(form.startDate, parsesAsDate)
           && form.projectType.NoSelection?
    ensures ValidateProject(form, parsesAsDate) == Failure(MissingDescription)
      <==> !Unfilled(form.title, TitlePlaceholder) && DateAccepted(form.startDate, parsesAsDate)
           && form.projectType.Selected? && Unfilled(form.description, DescriptionPlaceholder)
    ensures ValidateProject(form, parsesAsDate) == Failure(InvalidProjectType)
      <==> !Unfilled(form.title, TitlePlaceholder) && DateAccepted(form.startDate, parsesAsDate)
           && form.projectType.Selected? && !Unfilled(form.description, DescriptionPlaceholder)
           && !TypeNamed(form.projectType)
  {
  }

  /** The placeholder date is refused whatever the date parser says. */
  lemma PlaceholderDateRejected(form: ProjectForm, parsesAsDate: string -> bool)
    requires !Unfilled(form.title, TitlePlaceholder) && form.startDate == DatePlaceholder
    ensures ValidateProject(form, parsesAsDate) == Failure(InvalidStartDate)
  {
  }
}
