/**
 * Shared value types of the coaching CRM: the optional/failure wrappers and
 * the entity records (clients, check-in insights, workout logs, trainer
 * profiles) that the modelled operations read and write.
 */
module Domain {

  /** A value that may be absent (`undefined`/`null` in the source). */
  datatype Option<+T> = None | Some(value: T) {
    function GetOr(default: T): T {
      match this
      case Some(v) => v
      case None => default
    }
  }

  /** Outcome of an operation that can throw. */
  datatype Result<+T> = Ok(value: T) | Err(message: string)

  /** The four roster states a client can be in. */
  datatype ClientStatus = Active | Inactive | NeedsAttention | Overdue

  /** The slice of a client record the roster and colour helpers look at. */
  datatype Client = Client(id: string, name: string, email: string, status: ClientStatus)

  /** The four insight categories the insight generator asks for. */
  const InsightKinds: set<string> := {"observation", "recommendation", "concern", "positive"}

  /**
   * One insight attached to a check-in. The category is kept as the string it
   * arrived as, because the response mapping copies it without validation.
   */
  datatype CheckInInsight = CheckInInsight(id: string, kind: string, text: string, editable: bool)

  /** One logged set of a workout; `load` is a whole number in this model. */
  datatype LoggedSet = LoggedSet(setNumber: int, reps: int, load: int, completed: bool)

  datatype LoggedExercise = LoggedExercise(exerciseId: string, name: string, sets: seq<LoggedSet>)

  datatype WorkoutLog = WorkoutLog(id: string, exercises: seq<LoggedExercise>, completed: bool)

  datatype Certification = Certification(id: string, name: string, issuer: string, year: int, verified: bool)

  /** A certification as typed into the form, before it receives an id. */
  datatype CertificationDraft = CertificationDraft(name: string, issuer: string, year: int, verified: bool)

  datatype Experience = Experience(yearsCoaching: int, totalClients: int, successStories: string)

  datatype Social = Social(instagram: string, youtube: string, website: string)

  datatype ContactInfo = ContactInfo(phone: string, availability: string, timezone: string)

  datatype TrainerProfile = TrainerProfile(
    id: string,
    name: string,
    email: string,
    bio: string,
    specializations: seq<string>,
    certifications: seq<Certification>,
    experience: Experience,
    social: Social,
    contactInfo: ContactInfo,
    createdAt: int,
    updatedAt: int)
}
