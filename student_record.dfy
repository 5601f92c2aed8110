/** A student row of both student-list scripts (teacher_utility/): the
    `[student_id, name]` pair, and de-duplication by student ID. */
module StudentRecord {
  import opened Dedup

  datatype Student = Student(id: string, name: string)

  function IdOf(s: Student): string { s.id }

  /** The de-duplication both scripts end with: the first row of each ID,
      in order. */
  method UniqueStudents(students: seq<Student>) returns (unique: seq<Student>)
    ensures unique == KeepFirst(students, IdOf)
    ensures DistinctKeys(unique, IdOf)
    ensures KeySet(unique, IdOf) == KeySet(students, IdOf)
    ensures forall x :: x in unique ==> x in students
  {
    unique := DedupByKey(students, IdOf);
    KeepFirstDistinct(students, IdOf);
    KeepFirstKeys(students, IdOf);
    KeepFirstFromInput(students, IdOf);
  }
}
